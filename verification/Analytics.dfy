/**
 The analytics views over one state of the ledger: rows grouped by the database in any order, converted
 at fixed rates, added up and maximised.
 */
module Analytics {
  import opened Wrappers
  import opened Tables
  import opened LedgerTotals

  type Rates = Currency -> real

  datatype Group = Group(kind: EntryType, currency: Currency)

  /** One row of a GROUP BY query: COUNT and SUM of a group's entries. */
  datatype Row = Row(group: Group, count: nat, total: real)

  /** One row of the MAX query. */
  datatype MaxRow = MaxRow(currency: Currency, max: real)

  /** The wallets a query is about, joined with their currencies. */
  datatype Scope = Scope(wallets: map<WalletId, WalletInfo>, chosen: set<WalletId>)

  datatype Tally = Tally(count: nat, total: real)

  const NOTHING := Tally(0, 0.0)

  function Plus(a: Tally, b: Tally): Tally
  {
    Tally(a.count + b.count, a.total + b.total)
  }

  function Unconverted(c: Currency): real
  {
    1.0
  }

  function UserWallets(wallets: map<WalletId, WalletInfo>, user: UserId): Scope
  {
    Scope(wallets, set x | x in wallets && wallets[x].owner == user)
  }

  function InCurrency(s: Scope, currency: Currency): set<WalletId>
  {
    set x | x in s.chosen && x in s.wallets && s.wallets[x].currency == currency
  }

  predicate Joined(s: Scope, row: LedgerRow)
  {
    row.wallet in s.chosen && row.wallet in s.wallets
  }

  function GroupOf(s: Scope, row: LedgerRow): Group
    requires Joined(s, row)
  {
    Group(row.kind, s.wallets[row.wallet].currency)
  }

  // ---------- what the queries say ----------

  /** An entry's amount, converted. */
  function RatedEntry(s: Scope, row: LedgerRow, rates: Rates): real
    requires Joined(s, row)
  {
    row.amount * rates(s.wallets[row.wallet].currency)
  }

  /** What one entry adds to a set of groups. */
  function Share(s: Scope, row: LedgerRow, groups: set<Group>, rates: Rates): Tally
  {
    if Joined(s, row) && GroupOf(s, row) in groups then Tally(1, RatedEntry(s, row, rates)) else NOTHING
  }

  /** COUNT and converted SUM of the entries whose group is one of `groups`. */
  function TallyOf(s: Scope, ledger: seq<LedgerRow>, groups: set<Group>, rates: Rates): Tally
  {
    if ledger == [] then NOTHING
    else Plus(TallyOf(s, ledger[..|ledger| - 1], groups, rates), Share(s, ledger[|ledger| - 1], groups, rates))
  }

  /** What one entry adds to the entries of a kind. */
  function Part(s: Scope, row: LedgerRow, kind: Option<EntryType>, rates: Rates): Tally
  {
    if Joined(s, row) && (kind.None? || row.kind == kind.value)
    then Tally(1, RatedEntry(s, row, rates))
    else NOTHING
  }

  /** COUNT and converted SUM of the entries of one kind, or of all when it is `None`. */
  function Overall(s: Scope, ledger: seq<LedgerRow>, kind: Option<EntryType>, rates: Rates): Tally
  {
    if ledger == [] then NOTHING
    else Plus(Overall(s, ledger[..|ledger| - 1], kind, rates), Part(s, ledger[|ledger| - 1], kind, rates))
  }

  predicate DistinctGroups(rows: seq<Row>)
  {
    forall i, j :: 0 <= i < j < |rows| ==> rows[i].group != rows[j].group
  }

  function Groups(rows: seq<Row>): set<Group>
  {
    set i | 0 <= i < |rows| :: rows[i].group
  }

  /** Each group that has an entry appears once, with its own count and sum. */
  predicate IsBreakdown(s: Scope, ledger: seq<LedgerRow>, rows: seq<Row>)
  {
    && DistinctGroups(rows)
    && (forall i :: 0 <= i < |rows| ==>
          Tally(rows[i].count, rows[i].total) == TallyOf(s, ledger, {rows[i].group}, Unconverted))
    && (forall j :: 0 <= j < |ledger| && Joined(s, ledger[j]) ==> GroupOf(s, ledger[j]) in Groups(rows))
  }

  function OfKind(rows: seq<Row>, kind: EntryType): seq<Row>
  {
    if rows == [] then []
    else
      var n := |rows| - 1;
      OfKind(rows[..n], kind) + (if rows[n].group.kind == kind then [rows[n]] else [])
  }

  function Converted(row: Row, rates: Rates): real
  {
    row.total * rates(row.group.currency)
  }

  function Aggregate(rows: seq<Row>, rates: Rates): Tally
  {
    if rows == [] then NOTHING
    else
      var n := |rows| - 1;
      Plus(Aggregate(rows[..n], rates), Tally(rows[n].count, Converted(rows[n], rates)))
  }

  // ---------- grouping loses nothing ----------

  lemma PlusSwaps(a: Tally, b: Tally, c: Tally, d: Tally)
    ensures Plus(Plus(a, b), Plus(c, d)) == Plus(Plus(a, c), Plus(b, d))
    ensures Plus(a, NOTHING) == a
  {
  }

  lemma TallyGrows(s: Scope, ledger: seq<LedgerRow>, groups: set<Group>, rates: Rates)
    ensures TallyOf(s, [], groups, rates) == NOTHING
    ensures ledger != [] ==>
              TallyOf(s, ledger, groups, rates)
              == Plus(TallyOf(s, ledger[..|ledger| - 1], groups, rates), Share(s, ledger[|ledger| - 1], groups, rates))
  {
  }

  lemma ShareWithout(s: Scope, row: LedgerRow, groups: set<Group>, g: Group, rates: Rates)
    requires g in groups
    ensures Share(s, row, groups, rates) == Plus(Share(s, row, {g}, rates), Share(s, row, groups - {g}, rates))
  {
    hide RatedEntry, Joined, GroupOf;
  }

  lemma {:induction false} TallyWithout(s: Scope, ledger: seq<LedgerRow>, groups: set<Group>, g: Group, rates: Rates)
    requires g in groups
    ensures TallyOf(s, ledger, groups, rates)
            == Plus(TallyOf(s, ledger, {g}, rates), TallyOf(s, ledger, groups - {g}, rates))
  {
    hide TallyOf, Share, Plus;
    TallyGrows(s, ledger, groups, rates);
    TallyGrows(s, ledger, {g}, rates);
    TallyGrows(s, ledger, groups - {g}, rates);
    if ledger == [] {
      PlusSwaps(NOTHING, NOTHING, NOTHING, NOTHING);
    } else {
      var before, row := ledger[..|ledger| - 1], ledger[|ledger| - 1];
      TallyWithout(s, before, groups, g, rates);
      ShareWithout(s, row, groups, g, rates);
      PlusSwaps(TallyOf(s, before, {g}, rates), TallyOf(s, before, groups - {g}, rates),
                Share(s, row, {g}, rates), Share(s, row, groups - {g}, rates));
    }
  }

  lemma {:induction false} TallyOfNone(s: Scope, ledger: seq<LedgerRow>, rates: Rates)
    ensures TallyOf(s, ledger, {}, rates) == NOTHING
  {
    if ledger != [] {
      TallyOfNone(s, ledger[..|ledger| - 1], rates);
    }
  }

  /** A tally taken without conversion, its total then converted. */
  function Rerated(t: Tally, rate: real): Tally
  {
    Tally(t.count, t.total * rate)
  }

  lemma RerateSum(a: Tally, b: Tally, rate: real)
    ensures Rerated(Plus(a, b), rate) == Plus(Rerated(a, rate), Rerated(b, rate))
    ensures Rerated(NOTHING, rate) == NOTHING
  {
    SumTimes(a.total, b.total, rate);
  }

  lemma RateOne(s: Scope, row: LedgerRow, rates: Rates)
    requires Joined(s, row)
    ensures RatedEntry(s, row, rates) == RatedEntry(s, row, Unconverted) * rates(s.wallets[row.wallet].currency)
  {
  }

  lemma RerateShare(s: Scope, row: LedgerRow, g: Group, rates: Rates)
    ensures Share(s, row, {g}, rates) == Rerated(Share(s, row, {g}, Unconverted), rates(g.currency))
  {
    hide RatedEntry;
    if Joined(s, row) && GroupOf(s, row) == g {
      RateOne(s, row, rates);
    } else {
      RerateSum(NOTHING, NOTHING, rates(g.currency));
    }
  }

  /** Converting a group's sum is summing its converted entries. */
  lemma {:induction false} ConvertSum(s: Scope, ledger: seq<LedgerRow>, g: Group, rates: Rates)
    ensures TallyOf(s, ledger, {g}, rates) == Rerated(TallyOf(s, ledger, {g}, Unconverted), rates(g.currency))
  {
    hide TallyOf, Share, Plus, Rerated;
    TallyGrows(s, ledger, {g}, rates);
    TallyGrows(s, ledger, {g}, Unconverted);
    if ledger == [] {
      RerateSum(NOTHING, NOTHING, rates(g.currency));
    } else {
      var before, row := ledger[..|ledger| - 1], ledger[|ledger| - 1];
      ConvertSum(s, before, g, rates);
      RerateShare(s, row, g, rates);
      RerateSum(TallyOf(s, before, {g}, Unconverted), Share(s, row, {g}, Unconverted), rates(g.currency));
    }
  }

  lemma PlusCommutes(a: Tally, b: Tally)
    ensures Plus(a, b) == Plus(b, a)
  {
  }

  lemma {:induction false} AggregateIsTally(s: Scope, ledger: seq<LedgerRow>, rows: seq<Row>, rates: Rates)
    requires DistinctGroups(rows)
    requires forall i :: 0 <= i < |rows| ==>
               Tally(rows[i].count, rows[i].total) == TallyOf(s, ledger, {rows[i].group}, Unconverted)
    ensures Aggregate(rows, rates) == TallyOf(s, ledger, Groups(rows), rates)
  {
    hide TallyOf, Plus;
    if rows == [] {
      assert Groups(rows) == {};
      TallyOfNone(s, ledger, rates);
    } else {
      var n := |rows| - 1;
      var g := rows[n].group;
      AggregateIsTally(s, ledger, rows[..n], rates);
      assert Groups(rows) - {g} == Groups(rows[..n]);
      TallyWithout(s, ledger, Groups(rows), g, rates);
      ConvertSum(s, ledger, g, rates);
      PlusCommutes(TallyOf(s, ledger, {g}, rates), TallyOf(s, ledger, Groups(rows[..n]), rates));
      assert Tally(rows[n].count, Converted(rows[n], rates))
             == Rerated(Tally(rows[n].count, rows[n].total), rates(g.currency));
    }
  }

  /** Exactly the entries of one kind, when the groups are those of that kind. */
  lemma {:induction false} KindIsOverall(s: Scope, ledger: seq<LedgerRow>, groups: set<Group>, kind: EntryType,
                                         rates: Rates)
    requires forall g :: g in groups ==> g.kind == kind
    requires forall j :: 0 <= j < |ledger| && Joined(s, ledger[j]) && ledger[j].kind == kind ==>
               GroupOf(s, ledger[j]) in groups
    ensures TallyOf(s, ledger, groups, rates) == Overall(s, ledger, Some(kind), rates)
  {
    hide Plus, RatedEntry;
    if ledger != [] {
      KindIsOverall(s, ledger[..|ledger| - 1], groups, kind, rates);
    }
  }

  lemma {:induction false} FilterGroups(rows: seq<Row>, kind: EntryType)
    ensures forall r :: r in OfKind(rows, kind) <==> r in rows && r.group.kind == kind
    ensures DistinctGroups(rows) ==> DistinctGroups(OfKind(rows, kind))
  {
    if rows != [] {
      var n := |rows| - 1;
      FilterGroups(rows[..n], kind);
      assert rows == rows[..n] + [rows[n]];
    }
  }

  /**
   The breakdown, filtered by kind, converted and added up, is what one pass over the entries of that kind
   gives, in whatever order the groups come.
   */
  lemma BreakdownAgrees(s: Scope, ledger: seq<LedgerRow>, rows: seq<Row>, kind: EntryType, rates: Rates)
    requires IsBreakdown(s, ledger, rows)
    ensures Aggregate(OfKind(rows, kind), rates) == Overall(s, ledger, Some(kind), rates)
  {
    hide TallyOf, Overall, Aggregate, OfKind;
    var some := OfKind(rows, kind);
    FilterGroups(rows, kind);
    forall i | 0 <= i < |some|
      ensures Tally(some[i].count, some[i].total) == TallyOf(s, ledger, {some[i].group}, Unconverted)
    {
      assert some[i] in rows;
    }
    AggregateIsTally(s, ledger, some, rates);
    forall j | 0 <= j < |ledger| && Joined(s, ledger[j]) && ledger[j].kind == kind
      ensures GroupOf(s, ledger[j]) in Groups(some)
    {
      var i :| 0 <= i < |rows| && rows[i].group == GroupOf(s, ledger[j]);
      assert rows[i] in some;
    }
    forall g | g in Groups(some)
      ensures g.kind == kind
    {
      var i :| 0 <= i < |some| && some[i].group == g;
      assert some[i] in some;
    }
    KindIsOverall(s, ledger, Groups(some), kind, rates);
  }

  lemma PartsAddUp(s: Scope, row: LedgerRow, rates: Rates)
    ensures Part(s, row, None, rates) == Plus(Part(s, row, Some(Credit), rates), Part(s, row, Some(Debit), rates))
  {
    hide RatedEntry, Joined;
    match row.kind {
      case Credit =>
      case Debit =>
    }
  }

  lemma OverallGrows(s: Scope, ledger: seq<LedgerRow>, kind: Option<EntryType>, rates: Rates)
    ensures Overall(s, [], kind, rates) == NOTHING
    ensures ledger != [] ==>
              Overall(s, ledger, kind, rates)
              == Plus(Overall(s, ledger[..|ledger| - 1], kind, rates), Part(s, ledger[|ledger| - 1], kind, rates))
  {
  }

  lemma {:induction false} KindsAddUp(s: Scope, ledger: seq<LedgerRow>, rates: Rates)
    ensures Overall(s, ledger, None, rates)
            == Plus(Overall(s, ledger, Some(Credit), rates), Overall(s, ledger, Some(Debit), rates))
  {
    hide Part, Overall, Plus;
    OverallGrows(s, ledger, None, rates);
    OverallGrows(s, ledger, Some(Credit), rates);
    OverallGrows(s, ledger, Some(Debit), rates);
    if ledger == [] {
      PlusSwaps(NOTHING, NOTHING, NOTHING, NOTHING);
    } else {
      var before, row := ledger[..|ledger| - 1], ledger[|ledger| - 1];
      KindsAddUp(s, before, rates);
      PartsAddUp(s, row, rates);
      PlusSwaps(Overall(s, before, Some(Credit), rates), Overall(s, before, Some(Debit), rates),
                Part(s, row, Some(Credit), rates), Part(s, row, Some(Debit), rates));
    }
  }

  /** The two counts a user is shown add up to the number of transactions shown beside them. */
  lemma CountsAddUp(s: Scope, ledger: seq<LedgerRow>, rows: seq<Row>, rates: Rates)
    requires IsBreakdown(s, ledger, rows)
    ensures Aggregate(OfKind(rows, Credit), rates).count + Aggregate(OfKind(rows, Debit), rates).count
            == Overall(s, ledger, None, rates).count
  {
    hide Overall, Aggregate, OfKind;
    BreakdownAgrees(s, ledger, rows, Credit, rates);
    BreakdownAgrees(s, ledger, rows, Debit, rates);
    KindsAddUp(s, ledger, rates);
  }

  // ---------- against the balances ----------

  lemma SharesAreSigned(s: Scope, row: LedgerRow, currency: Currency)
    ensures Share(s, row, {Group(Credit, currency)}, Unconverted).total
            - Share(s, row, {Group(Debit, currency)}, Unconverted).total
            == SignedIn(row, InCurrency(s, currency))
  {
    match row.kind {
      case Credit =>
      case Debit =>
    }
  }

  lemma {:induction false} GroupsAgainstTotal(s: Scope, ledger: seq<LedgerRow>, currency: Currency)
    ensures TallyOf(s, ledger, {Group(Credit, currency)}, Unconverted).total
            - TallyOf(s, ledger, {Group(Debit, currency)}, Unconverted).total
            == TotalIn(ledger, InCurrency(s, currency))
  {
    hide TallyOf, Share, SignedIn, InCurrency;
    TallyGrows(s, ledger, {Group(Credit, currency)}, Unconverted);
    TallyGrows(s, ledger, {Group(Debit, currency)}, Unconverted);
    if ledger != [] {
      GroupsAgainstTotal(s, ledger[..|ledger| - 1], currency);
      SharesAreSigned(s, ledger[|ledger| - 1], currency);
    }
  }

  /** What a breakdown says of a group; a group without entries has no row. */
  function TotalShown(rows: seq<Row>, g: Group): real
  {
    if rows == [] then 0.0
    else if rows[|rows| - 1].group == g then rows[|rows| - 1].total
    else TotalShown(rows[..|rows| - 1], g)
  }

  lemma {:induction false} ShownIsRow(rows: seq<Row>, g: Group)
    ensures g !in Groups(rows) ==> TotalShown(rows, g) == 0.0
    ensures g in Groups(rows) ==>
              exists i :: 0 <= i < |rows| && rows[i].group == g && rows[i].total == TotalShown(rows, g)
  {
    if rows != [] {
      var n := |rows| - 1;
      ShownIsRow(rows[..n], g);
      if rows[n].group != g {
        assert g in Groups(rows) <==> g in Groups(rows[..n]) by {
          assert forall i :: 0 <= i < n ==> rows[..n][i] == rows[i];
        }
      } else {
        assert rows[n].group in Groups(rows);
      }
    }
  }

  lemma {:induction false} EmptyGroup(s: Scope, ledger: seq<LedgerRow>, g: Group, rates: Rates)
    requires forall j :: 0 <= j < |ledger| && Joined(s, ledger[j]) ==> GroupOf(s, ledger[j]) != g
    ensures TallyOf(s, ledger, {g}, rates) == NOTHING
  {
    if ledger != [] {
      EmptyGroup(s, ledger[..|ledger| - 1], g, rates);
    }
  }

  lemma ShownIsTally(s: Scope, ledger: seq<LedgerRow>, rows: seq<Row>, g: Group)
    requires IsBreakdown(s, ledger, rows)
    ensures TotalShown(rows, g) == TallyOf(s, ledger, {g}, Unconverted).total
  {
    hide TallyOf, TotalShown;
    ShownIsRow(rows, g);
    if g !in Groups(rows) {
      EmptyGroup(s, ledger, g, Unconverted);
    }
  }

  /** Per currency, the credits shown less the debits shown are the summed balances of the wallets in it. */
  lemma ShownIsBalance(s: Scope, ledger: seq<LedgerRow>, rows: seq<Row>, currency: Currency)
    requires IsBreakdown(s, ledger, rows)
    ensures TotalShown(rows, Group(Credit, currency)) - TotalShown(rows, Group(Debit, currency))
            == SumBalances(ledger, InCurrency(s, currency))
  {
    hide TallyOf, TotalShown, IsBreakdown;
    ShownIsTally(s, ledger, rows, Group(Credit, currency));
    ShownIsTally(s, ledger, rows, Group(Debit, currency));
    GroupsAgainstTotal(s, ledger, currency);
    SumIsTotal(ledger, InCurrency(s, currency));
  }

  /** Each wallet's balance, converted, summed. */
  ghost function Worth(s: Scope, ledger: seq<LedgerRow>, wallets: set<WalletId>, rates: Rates): real
    requires wallets <= s.wallets.Keys
  {
    if wallets == {} then 0.0
    else
      var x := Pick(wallets);
      Balance(ledger, x) * rates(s.wallets[x].currency) + Worth(s, ledger, wallets - {x}, rates)
  }

  function SignedWorth(s: Scope, row: LedgerRow, wallets: set<WalletId>, rates: Rates): real
    requires wallets <= s.wallets.Keys
  {
    if row.wallet in wallets then Signed(row, row.wallet) * rates(s.wallets[row.wallet].currency) else 0.0
  }

  lemma SumTimes(a: real, b: real, rate: real)
    ensures (a + b) * rate == a * rate + b * rate
  {
  }

  lemma {:induction false} WorthGrows(s: Scope, ledger: seq<LedgerRow>, row: LedgerRow, wallets: set<WalletId>,
                                      rates: Rates)
    requires wallets <= s.wallets.Keys
    ensures Worth(s, ledger + [row], wallets, rates)
            == Worth(s, ledger, wallets, rates) + SignedWorth(s, row, wallets, rates)
  {
    hide Balance;
    if wallets != {} {
      var x := Pick(wallets);
      WorthGrows(s, ledger, row, wallets - {x}, rates);
      BalanceAppend(ledger, row, x);
      var rate := rates(s.wallets[x].currency);
      SumTimes(Balance(ledger, x), Signed(row, x), rate);
    }
  }

  lemma {:induction false} WorthOfNothing(s: Scope, wallets: set<WalletId>, rates: Rates)
    requires wallets <= s.wallets.Keys
    ensures Worth(s, [], wallets, rates) == 0.0
  {
    if wallets != {} {
      WorthOfNothing(s, wallets - {Pick(wallets)}, rates);
    }
  }

  lemma PartsAreSigned(s: Scope, row: LedgerRow, rates: Rates)
    requires s.chosen <= s.wallets.Keys
    ensures Part(s, row, Some(Credit), rates).total - Part(s, row, Some(Debit), rates).total
            == SignedWorth(s, row, s.chosen, rates)
  {
    match row.kind {
      case Credit =>
      case Debit =>
    }
  }

  lemma {:induction false} NetIsWorth(s: Scope, ledger: seq<LedgerRow>, rates: Rates)
    requires s.chosen <= s.wallets.Keys
    ensures Overall(s, ledger, Some(Credit), rates).total - Overall(s, ledger, Some(Debit), rates).total
            == Worth(s, ledger, s.chosen, rates)
  {
    hide Worth, Overall, Part, SignedWorth;
    OverallGrows(s, ledger, Some(Credit), rates);
    OverallGrows(s, ledger, Some(Debit), rates);
    if ledger == [] {
      WorthOfNothing(s, s.chosen, rates);
    } else {
      var before, row := ledger[..|ledger| - 1], ledger[|ledger| - 1];
      NetIsWorth(s, before, rates);
      PartsAreSigned(s, row, rates);
      WorthGrows(s, before, row, s.chosen, rates);
      assert ledger == before + [row];
    }
  }

  /** The converted credits less the converted debits are the converted balances of the user's wallets. */
  lemma AnalyticsShowWorth(s: Scope, ledger: seq<LedgerRow>, rows: seq<Row>, rates: Rates)
    requires IsBreakdown(s, ledger, rows) && s.chosen <= s.wallets.Keys
    ensures Aggregate(OfKind(rows, Credit), rates).total - Aggregate(OfKind(rows, Debit), rates).total
            == Worth(s, ledger, s.chosen, rates)
  {
    hide Overall, Aggregate, OfKind, Worth;
    BreakdownAgrees(s, ledger, rows, Credit, rates);
    BreakdownAgrees(s, ledger, rows, Debit, rates);
    NetIsWorth(s, ledger, rates);
  }

  // ---------- the largest transfer ----------

  predicate IsEntryOf(s: Scope, ledger: seq<LedgerRow>, row: MaxRow)
  {
    exists j :: 0 <= j < |ledger| && Joined(s, ledger[j])
                && s.wallets[ledger[j].wallet].currency == row.currency && ledger[j].amount == row.max
  }

  predicate IsCoveredBy(s: Scope, entry: LedgerRow, rows: seq<MaxRow>)
    requires Joined(s, entry)
  {
    exists i :: 0 <= i < |rows| && rows[i].currency == s.wallets[entry.wallet].currency && entry.amount <= rows[i].max
  }

  /** Each currency that has an entry appears, with the largest amount among its entries. */
  predicate IsMaxima(s: Scope, ledger: seq<LedgerRow>, rows: seq<MaxRow>)
  {
    && (forall i :: 0 <= i < |rows| ==> IsEntryOf(s, ledger, rows[i]))
    && (forall j :: 0 <= j < |ledger| && Joined(s, ledger[j]) ==> IsCoveredBy(s, ledger[j], rows))
  }

  function Rated(row: MaxRow, rates: Rates): real
  {
    row.max * rates(row.currency)
  }

  /** `m` is the larger of zero and the largest converted row. */
  predicate IsLargest(rows: seq<MaxRow>, rates: Rates, m: real)
  {
    && m >= 0.0
    && (forall i :: 0 <= i < |rows| ==> Rated(rows[i], rates) <= m)
    && (m == 0.0 || exists i :: 0 <= i < |rows| && Rated(rows[i], rates) == m)
  }

  predicate IsLargestEntry(s: Scope, ledger: seq<LedgerRow>, rates: Rates, m: real)
  {
    && m >= 0.0
    && (forall j :: 0 <= j < |ledger| && Joined(s, ledger[j]) ==> RatedEntry(s, ledger[j], rates) <= m)
    && (m == 0.0 || exists j :: 0 <= j < |ledger| && Joined(s, ledger[j]) && RatedEntry(s, ledger[j], rates) == m)
  }

  lemma RateIsMonotone(s: Scope, entry: LedgerRow, row: MaxRow, rates: Rates)
    requires Joined(s, entry) && s.wallets[entry.wallet].currency == row.currency && rates(row.currency) >= 0.0
    ensures entry.amount <= row.max ==> RatedEntry(s, entry, rates) <= Rated(row, rates)
    ensures entry.amount == row.max ==> RatedEntry(s, entry, rates) == Rated(row, rates)
  {
  }

  /** Converting each currency's maximum and taking the largest finds the largest converted entry. */
  lemma LargestOfMaximaIsLargestEntry(s: Scope, ledger: seq<LedgerRow>, rows: seq<MaxRow>, rates: Rates, m: real)
    requires IsMaxima(s, ledger, rows) && IsLargest(rows, rates, m)
    requires forall c :: rates(c) >= 0.0
    ensures IsLargestEntry(s, ledger, rates, m)
  {
    hide Rated, RatedEntry, IsEntryOf, IsCoveredBy;
    forall j | 0 <= j < |ledger| && Joined(s, ledger[j])
      ensures RatedEntry(s, ledger[j], rates) <= m
    {
      CoveredIsBounded(s, ledger[j], rows, rates, m);
    }
    if m != 0.0 {
      var i :| 0 <= i < |rows| && Rated(rows[i], rates) == m;
      var j := EntryIsReached(s, ledger, rows[i], rates);
    }
  }

  lemma CoveredIsBounded(s: Scope, entry: LedgerRow, rows: seq<MaxRow>, rates: Rates, m: real)
    requires Joined(s, entry) && IsCoveredBy(s, entry, rows) && forall c :: rates(c) >= 0.0
    requires forall i :: 0 <= i < |rows| ==> Rated(rows[i], rates) <= m
    ensures RatedEntry(s, entry, rates) <= m
  {
    hide Rated, RatedEntry;
    var i :| 0 <= i < |rows| && rows[i].currency == s.wallets[entry.wallet].currency && entry.amount <= rows[i].max;
    RateIsMonotone(s, entry, rows[i], rates);
  }

  lemma EntryIsReached(s: Scope, ledger: seq<LedgerRow>, row: MaxRow, rates: Rates) returns (j: nat)
    requires IsEntryOf(s, ledger, row) && forall c :: rates(c) >= 0.0
    ensures j < |ledger| && Joined(s, ledger[j]) && RatedEntry(s, ledger[j], rates) == Rated(row, rates)
  {
    hide Rated, RatedEntry;
    j :| 0 <= j < |ledger| && Joined(s, ledger[j])
         && s.wallets[ledger[j].wallet].currency == row.currency && ledger[j].amount == row.max;
    RateIsMonotone(s, ledger[j], row, rates);
  }

  // ---------- one user's figures ----------

  predicate Owned(wallets: map<WalletId, WalletInfo>, user: UserId, row: LedgerRow)
  {
    row.wallet in wallets && wallets[row.wallet].owner == user
  }

  function OwnEntries(wallets: map<WalletId, WalletInfo>, user: UserId, ledger: seq<LedgerRow>): seq<LedgerRow>
  {
    if ledger == [] then []
    else
      var n := |ledger| - 1;
      OwnEntries(wallets, user, ledger[..n]) + (if Owned(wallets, user, ledger[n]) then [ledger[n]] else [])
  }

  lemma PartOfUser(wallets: map<WalletId, WalletInfo>, user: UserId, row: LedgerRow, kind: Option<EntryType>,
                   rates: Rates)
    ensures !Owned(wallets, user, row) ==> Part(UserWallets(wallets, user), row, kind, rates) == NOTHING
    ensures Owned(wallets, user, row) ==> Part(UserWallets(wallets, user), row, None, rates).count == 1
  {
  }

  /** A user's tallies are made of the entries of the user's own wallets, every one of them and no others. */
  lemma {:induction false} OwnEntriesAlone(wallets: map<WalletId, WalletInfo>, user: UserId, ledger: seq<LedgerRow>,
                                           kind: Option<EntryType>, rates: Rates)
    ensures var s, own := UserWallets(wallets, user), OwnEntries(wallets, user, ledger);
            && Overall(s, ledger, kind, rates) == Overall(s, own, kind, rates)
            && Overall(s, ledger, None, rates).count == |own|
  {
    hide Part, Overall, UserWallets, Owned, Plus;
    var s, own := UserWallets(wallets, user), OwnEntries(wallets, user, ledger);
    OverallGrows(s, ledger, kind, rates);
    OverallGrows(s, ledger, None, rates);
    OverallGrows(s, own, kind, rates);
    if ledger != [] {
      var n := |ledger| - 1;
      OwnEntriesAlone(wallets, user, ledger[..n], kind, rates);
      PartOfUser(wallets, user, ledger[n], kind, rates);
      PartOfUser(wallets, user, ledger[n], None, rates);
      PlusSwaps(Overall(s, ledger[..n], kind, rates), NOTHING, NOTHING, NOTHING);
      PlusCounts(Overall(s, ledger[..n], None, rates), Part(s, ledger[n], None, rates));
      if Owned(wallets, user, ledger[n]) {
        assert own[..|own| - 1] == OwnEntries(wallets, user, ledger[..n]);
      } else {
        assert own == OwnEntries(wallets, user, ledger[..n]);
      }
    }
  }

  lemma PlusCounts(a: Tally, b: Tally)
    ensures Plus(a, b).count == a.count + b.count
  {
  }

  function OwnValue(wallets: map<WalletId, WalletInfo>, row: LedgerRow, rates: Rates): real
  {
    if row.wallet in wallets then row.amount * rates(wallets[row.wallet].currency) else 0.0
  }

  /** The largest of a user's own entries, converted, or zero. */
  predicate IsLargestOwn(wallets: map<WalletId, WalletInfo>, user: UserId, ledger: seq<LedgerRow>, rates: Rates,
                         m: real)
  {
    && m >= 0.0
    && (forall row :: row in OwnEntries(wallets, user, ledger) ==> OwnValue(wallets, row, rates) <= m)
    && (m == 0.0 || exists row :: row in OwnEntries(wallets, user, ledger) && OwnValue(wallets, row, rates) == m)
  }

  lemma {:induction false} OwnEntriesAre(wallets: map<WalletId, WalletInfo>, user: UserId, ledger: seq<LedgerRow>)
    ensures forall row :: row in OwnEntries(wallets, user, ledger) <==> row in ledger && Owned(wallets, user, row)
  {
    hide Owned;
    if ledger != [] {
      var n := |ledger| - 1;
      OwnEntriesAre(wallets, user, ledger[..n]);
      assert ledger == ledger[..n] + [ledger[n]];
    }
  }

  lemma LargestIsOwn(wallets: map<WalletId, WalletInfo>, user: UserId, ledger: seq<LedgerRow>, rates: Rates, m: real)
    requires IsLargestEntry(UserWallets(wallets, user), ledger, rates, m)
    ensures IsLargestOwn(wallets, user, ledger, rates, m)
  {
    hide OwnEntries;
    var s := UserWallets(wallets, user);
    OwnEntriesAre(wallets, user, ledger);
    if m != 0.0 {
      var j :| 0 <= j < |ledger| && Joined(s, ledger[j]) && RatedEntry(s, ledger[j], rates) == m;
      assert ledger[j] in OwnEntries(wallets, user, ledger) && OwnValue(wallets, ledger[j], rates) == m;
    }
  }

  // ---------- the service ----------

  method ConvertAndAggregateRows(rows: seq<Row>, rates: Rates) returns (count: nat, total: real)
    ensures Tally(count, total) == Aggregate(rows, rates)
  {
    var converted: seq<Tally> := [];
    for i := 0 to |rows|
      invariant |converted| == i
      invariant forall j :: 0 <= j < i ==> converted[j] == Tally(rows[j].count, Converted(rows[j], rates))
    {
      converted := converted + [Tally(rows[i].count, rows[i].total * rates(rows[i].group.currency))];
    }
    count, total := 0, 0.0;
    for i := 0 to |converted|
      invariant Tally(count, total) == Aggregate(rows[..i], rates)
    {
      count := count + converted[i].count;
      total := total + converted[i].total;
      assert rows[..i + 1][..i] == rows[..i];
    }
    assert rows[..|rows|] == rows;
  }

  predicate IsOrder(order: seq<nat>, n: nat)
  {
    && |order| == n
    && (forall k :: 0 <= k < n ==> order[k] < n)
    && (forall i :: 0 <= i < n ==> i in order)
  }

  /** The conversions complete in any order, each raising the running maximum in one go. */
  method GetLargestTransferAmount(rows: seq<MaxRow>, rates: Rates, order: seq<nat>) returns (largest: real)
    requires IsOrder(order, |rows|)
    ensures IsLargest(rows, rates, largest)
  {
    largest := 0.0;
    for k := 0 to |order|
      invariant largest >= 0.0
      invariant forall i :: 0 <= i < k ==> Rated(rows[order[i]], rates) <= largest
      invariant largest == 0.0 || exists i :: 0 <= i < |rows| && Rated(rows[i], rates) == largest
    {
      var conv := rows[order[k]].max * rates(rows[order[k]].currency);
      if conv > largest {
        largest := conv;
      }
    }
    forall i | 0 <= i < |rows|
      ensures Rated(rows[i], rates) <= largest
    {
      assert i in order;
      var k :| 0 <= k < |order| && order[k] == i;
      assert Rated(rows[order[k]], rates) <= largest;
    }
  }

  lemma PlusRegroups(a: Tally, b: Tally, c: Tally)
    ensures Plus(Plus(a, b), c) == Plus(a, Plus(b, c)) && Plus(a, NOTHING) == a
  {
  }

  /** The entries of a longer ledger are those of its beginning and those that came after. */
  lemma {:induction false} OverallSplits(s: Scope, before: seq<LedgerRow>, more: seq<LedgerRow>,
                                         kind: Option<EntryType>, rates: Rates)
    ensures Overall(s, before + more, kind, rates)
            == Plus(Overall(s, before, kind, rates), Overall(s, more, kind, rates))
  {
    hide Overall, Part, Plus;
    if more == [] {
      assert before + more == before;
      OverallGrows(s, more, kind, rates);
      PlusRegroups(Overall(s, before, kind, rates), NOTHING, NOTHING);
    } else {
      var n := |more| - 1;
      OverallSplits(s, before, more[..n], kind, rates);
      assert (before + more)[..|before| + n] == before + more[..n];
      OverallGrows(s, before + more, kind, rates);
      OverallGrows(s, more, kind, rates);
      PlusRegroups(Overall(s, before, kind, rates), Overall(s, more[..n], kind, rates), Part(s, more[n], kind, rates));
    }
  }

  /**
   What a user is shown, by three queries one after the other. The ledger may grow between them: `counted` is
   what the count saw, `ledger` what the breakdown saw, `latest` what the maxima saw.
   */
  method ComputeAnalytics(wallets: map<WalletId, WalletInfo>, user: UserId, total: nat, rows: seq<Row>,
                          maxima: seq<MaxRow>, rates: Rates, order: seq<nat>,
                          ghost counted: seq<LedgerRow>, ghost ledger: seq<LedgerRow>, ghost latest: seq<LedgerRow>)
    returns (credits: Tally, debits: Tally, largest: real, totalTransactions: nat)
    requires counted <= ledger <= latest
    requires var s := UserWallets(wallets, user);
             && total == Overall(s, counted, None, rates).count
             && IsBreakdown(s, ledger, rows) && IsMaxima(s, latest, maxima)
    requires IsOrder(order, |maxima|) && forall c :: rates(c) >= 0.0
    ensures var s := UserWallets(wallets, user);
            && credits == Overall(s, ledger, Some(Credit), rates) && debits == Overall(s, ledger, Some(Debit), rates)
            && credits.count + debits.count == totalTransactions + Overall(s, ledger[|counted|..], None, rates).count
            && credits.total - debits.total == Worth(s, ledger, s.chosen, rates)
            && IsLargestEntry(s, latest, rates, largest)
    ensures counted == ledger ==> credits.count + debits.count == totalTransactions
    // every entry of the user's wallets, and nobody else's, is in the figures
    ensures totalTransactions == |OwnEntries(wallets, user, counted)|
    ensures credits.count + debits.count == |OwnEntries(wallets, user, ledger)|
    ensures var s, own := UserWallets(wallets, user), OwnEntries(wallets, user, ledger);
            credits == Overall(s, own, Some(Credit), rates) && debits == Overall(s, own, Some(Debit), rates)
    ensures IsLargestOwn(wallets, user, latest, rates, largest)
  {
    OwnEntriesAlone(wallets, user, counted, None, rates);
    OwnEntriesAlone(wallets, user, ledger, Some(Credit), rates);
    OwnEntriesAlone(wallets, user, ledger, Some(Debit), rates);
    hide IsBreakdown, IsMaxima, IsOrder, IsLargest, IsLargestEntry, Overall, Worth, Aggregate, OfKind;
    ghost var s := UserWallets(wallets, user);
    totalTransactions := total;
    var count, sum := ConvertAndAggregateRows(OfKind(rows, Credit), rates);
    credits := Tally(count, sum);
    count, sum := ConvertAndAggregateRows(OfKind(rows, Debit), rates);
    debits := Tally(count, sum);
    largest := GetLargestTransferAmount(maxima, rates, order);
    BreakdownAgrees(s, ledger, rows, Credit, rates);
    BreakdownAgrees(s, ledger, rows, Debit, rates);
    KindsAddUp(s, ledger, rates);
    NetIsWorth(s, ledger, rates);
    assert counted + ledger[|counted|..] == ledger;
    OverallSplits(s, counted, ledger[|counted|..], None, rates);
    LargestOfMaximaIsLargestEntry(s, latest, maxima, rates, largest);
    LargestIsOwn(wallets, user, latest, rates, largest);
  }
}
