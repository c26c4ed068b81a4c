/**
 * Buying points. The page offers four packages; with a wallet present, a
 * purchase writes `points + bonus` more to the buyer's balance and adds the same
 * total to the `totalPurchased` statistic kept in the browser's storage. The
 * `loading` flag and the selected package are cleared however the purchase ends.
 */
module BuyPoints {
  import opened Common
  import opened Backend

  /** A package on offer (its price, currency, icon and colour are left out). */
  datatype Package = Package(id: string, name: string, points: int, bonus: int, popular: bool)

  /** The packages in the order they are listed. */
  const Packages: seq<Package> := [
    Package("starter", "Starter Pack", 1000, 0, false),
    Package("growth", "Growth Pack", 5000, 500, true),
    Package("pro", "Pro Pack", 10000, 1500, false),
    Package("elite", "Elite Pack", 25000, 5000, false)
  ]

  /** The points a purchase of the package credits. */
  function PackageTotal(pkg: Package): int {
    pkg.points + pkg.bonus
  }

  /**
   * No bonus is negative; points, and the totals credited, strictly increase along
   * the list; ids are distinct; exactly one package is marked popular.
   */
  lemma PackageTable()
    ensures forall i | 0 <= i < |Packages| :: Packages[i].bonus >= 0 && PackageTotal(Packages[i]) > 0
    ensures forall i, j | 0 <= i < j < |Packages| :: Packages[i].points < Packages[j].points
    ensures forall i, j | 0 <= i < j < |Packages| :: PackageTotal(Packages[i]) < PackageTotal(Packages[j])
    ensures forall i, j | 0 <= i < j < |Packages| :: Packages[i].id != Packages[j].id
    ensures forall i | 0 <= i < |Packages| :: Packages[i].popular <==> i == 1
  {
    var ps := Packages;
    assert ps[0].id == "starter" && ps[1].id == "growth" && ps[2].id == "pro" && ps[3].id == "elite";
    assert ps[0].id[0] == 's' && ps[1].id[0] == 'g' && ps[2].id[0] == 'p' && ps[3].id[0] == 'e';
  }

  /** Every package on offer credits a positive number of points. */
  lemma PackageTotalPositive(pkg: Package)
    requires pkg in Packages
    ensures PackageTotal(pkg) > 0
  {
    PackageTable();
  }

  // ---------------------------------------------------------------- statistics

  /** The `totalPurchased` key of the stored statistics object. */
  const TotalPurchasedKey := "totalPurchased"

  /**
   * The `hypehub_user_stats` storage entry: absent (read as `{}`), an object with
   * numeric fields, or text that does not parse to an object.
   */
  datatype StatsSlot = NoStats | Stats(fields: map<string, int>) | Unreadable

  /** The fields the purchase reads: `{}` for an absent entry. */
  function CurrentStats(slot: StatsSlot): map<string, int>
    requires !slot.Unreadable?
  {
    if slot.Stats? then slot.fields else map[]
  }

  /** `(currentStats.totalPurchased || 0)`: an absent field reads as 0. */
  function TotalPurchased(stats: map<string, int>): int {
    if TotalPurchasedKey in stats then stats[TotalPurchasedKey] else 0
  }

  /**
   * `{...currentStats, totalPurchased: ... + total}`: every other field is kept and
   * the total grows by exactly `total`.
   */
  function AccumulatePurchase(stats: map<string, int>, total: int): (r: map<string, int>)
    ensures r.Keys == stats.Keys + {TotalPurchasedKey}
    ensures TotalPurchased(r) == TotalPurchased(stats) + total
    ensures forall k | k in stats && k != TotalPurchasedKey :: r[k] == stats[k]
  {
    stats[TotalPurchasedKey := TotalPurchased(stats) + total]
  }

  /** Two purchases in a row add up the same as one of their combined total. */
  lemma AccumulateAdditive(stats: map<string, int>, a: int, b: int)
    ensures AccumulatePurchase(AccumulatePurchase(stats, a), b) == AccumulatePurchase(stats, a + b)
  {
  }

  // ---------------------------------------------------------------- a purchase

  /** How a purchase ended, as the toasts report it. */
  datatype PurchaseOutcome = NotSignedIn | WalletNotFound | Purchased(total: int) | PurchaseFailed

  /**
   * What `handlePurchase` does to the balance, the statistics slot and the outcome,
   * for a given user, wallet and outcome of the balance write. The balance write
   * is not awaited, so its failure does not stop the statistics update; statistics
   * that cannot be read end in `PurchaseFailed` after the credit was written.
   */
  function Purchase(user: Option<User>, slot: StatsSlot, pkg: Package, walletPresent: bool, updateOk: bool)
    : (r: (Option<User>, StatsSlot, PurchaseOutcome))
    ensures user.None? || !walletPresent ==> r.0 == user && r.1 == slot
    ensures user.None? <==> r.2 == NotSignedIn
    ensures user.Some? && !walletPresent <==> r.2 == WalletNotFound
    ensures user.Some? && walletPresent && updateOk ==>
      r.0 == Some(user.value.(points := user.value.points + pkg.points + pkg.bonus))
    ensures user.Some? && walletPresent && !updateOk ==> r.0 == user
    ensures r.0.Some? <==> user.Some?
    ensures r.2.Purchased? <==> user.Some? && walletPresent && !slot.Unreadable?
    ensures r.2.Purchased? ==>
      && r.2.total == PackageTotal(pkg) && r.1.Stats?
      && TotalPurchased(r.1.fields) == TotalPurchased(CurrentStats(slot)) + PackageTotal(pkg)
      && r.1.fields.Keys == CurrentStats(slot).Keys + {TotalPurchasedKey}
      && (forall k | k in CurrentStats(slot) && k != TotalPurchasedKey :: r.1.fields[k] == CurrentStats(slot)[k])
    ensures !r.2.Purchased? ==> r.1 == slot
    ensures r.2 == PurchaseFailed <==> user.Some? && walletPresent && slot.Unreadable?
  {
    if user.None? then (user, slot, NotSignedIn)
    else if !walletPresent then (user, slot, WalletNotFound)
    else
      var total := PackageTotal(pkg);
      var credited := if updateOk then Some(user.value.(points := user.value.points + total)) else user;
      if slot.Unreadable? then (credited, slot, PurchaseFailed)
      else (credited, Stats(AccumulatePurchase(CurrentStats(slot), total)), Purchased(total))
  }

  /**
   * A purchase never lowers the balance: it rises by the package total when the
   * write succeeds and is unchanged otherwise.
   */
  lemma PurchaseNeverDebits(user: Option<User>, slot: StatsSlot, pkg: Package, walletPresent: bool, updateOk: bool)
    requires pkg in Packages
    requires user.Some?
    ensures var after := Purchase(user, slot, pkg, walletPresent, updateOk).0.value;
      && after.id == user.value.id
      && (after.points == user.value.points || after.points == user.value.points + PackageTotal(pkg))
      && after.points >= user.value.points
  {
    PackageTotalPositive(pkg);
  }

  // ---------------------------------------------------------------- the page

  class BuyPointsPage {
    const store: Store
    var selectedPackage: Option<string>
    var loading: bool
    var stats: StatsSlot

    constructor (store: Store, stats: StatsSlot)
      ensures this.store == store && this.stats == stats
      ensures selectedPackage.None? && !loading
    {
      this.store := store;
      this.stats := stats;
      selectedPackage := None;
      loading := false;
    }

    /**
     * `handlePurchase(pkg)`: without a user nothing happens; otherwise the balance,
     * statistics and outcome are those of `Purchase`, the rest of the store is left
     * alone, and the `finally` block clears `loading` and the selection.
     */
    method HandlePurchase(pkg: Package, walletPresent: bool, updateOk: bool) returns (outcome: PurchaseOutcome)
      requires store.Valid()
      requires pkg in Packages
      modifies this, store
      ensures store.Valid()
      ensures old(store.Solvent()) ==> store.Solvent()
      ensures (store.user, stats, outcome) == Purchase(old(store.user), old(stats), pkg, walletPresent, updateOk)
      ensures store.tasks == old(store.tasks) && store.completions == old(store.completions)
      ensures store.nextId == old(store.nextId) && store.credited == old(store.credited)
      ensures old(store.user).None? ==>
        store.profiles == old(store.profiles)
        && selectedPackage == old(selectedPackage) && loading == old(loading)
      ensures old(store.user).Some? ==>
        && store.profiles == (if walletPresent && updateOk
          then old(store.profiles)[old(store.user).value.id := old(store.user).value.points + PackageTotal(pkg)]
          else old(store.profiles))
        && selectedPackage.None? && !loading
    {
      if store.user.None? {
        return NotSignedIn;
      }
      loading := true;
      selectedPackage := Some(pkg.id);
      PackageTotalPositive(pkg);
      var newStats;
      newStats, outcome := Pay(pkg, walletPresent, updateOk);
      stats := newStats;
      loading := false;
      selectedPackage := None;
    }

    /**
     * The `try` block: with a wallet, write the credited balance, then read the
     * statistics and write them back with the total added.
     */
    method Pay(pkg: Package, walletPresent: bool, updateOk: bool) returns (newStats: StatsSlot, outcome: PurchaseOutcome)
      requires store.Valid() && store.user.Some?
      requires PackageTotal(pkg) > 0
      modifies store
      ensures store.Valid()
      ensures old(store.Solvent()) ==> store.Solvent()
      ensures (store.user, newStats, outcome) == Purchase(old(store.user), stats, pkg, walletPresent, updateOk)
      ensures store.tasks == old(store.tasks) && store.completions == old(store.completions)
      ensures store.nextId == old(store.nextId) && store.credited == old(store.credited)
      ensures store.profiles == if walletPresent && updateOk
        then old(store.profiles)[old(store.user).value.id := old(store.user).value.points + PackageTotal(pkg)]
        else old(store.profiles)
    {
      if !walletPresent {
        return stats, WalletNotFound;
      }
      var total := PackageTotal(pkg);
      store.UpdateUserPoints(store.user.value.points + total, updateOk);
      if stats.Unreadable? {
        newStats, outcome := stats, PurchaseFailed;
      } else {
        newStats, outcome := Stats(AccumulatePurchase(CurrentStats(stats), total)), Purchased(total);
      }
    }
  }
}
