/**
  The derived views of App (src/App.js): `totalAmount`, `upcomingPayments` and
  `filteredReceipts`. Each is recomputed from the receipts list (and, for the last, the
  navigation cursor and the search text).
 */
module Views {
  import opened Wrappers
  import opened Text
  import opened Sequences
  import opened Sorting
  import opened Records

  /** `Number(r.amount) || 0`: a NaN amount counts as 0. */
  function AmountValue(a: Amount): (v: real)
    ensures a.NaN? ==> v == 0.0
    ensures a.Num? ==> v == a.value
  {
    match a
    case Num(v) => v
    case NaN => 0.0
  }

  /** No receipt of `rs` has a negative amount (checked from the back, as `TotalAmount` folds). */
  predicate NoNegativeAmount(rs: seq<Receipt>) {
    rs == [] || (NoNegativeAmount(rs[..|rs| - 1]) && AmountValue(rs[|rs| - 1].amount) >= 0.0)
  }

  /** `receipts.reduce((sum, r) => sum + (Number(r.amount) || 0), 0)`, folding from the left. */
  function TotalAmount(rs: seq<Receipt>): (t: real)
    ensures NoNegativeAmount(rs) ==> t >= 0.0
  {
    if rs == [] then 0.0
    else TotalAmount(rs[..|rs| - 1]) + AmountValue(rs[|rs| - 1].amount)
  }

  /** The total of two lists laid end to end is the sum of their totals. */
  lemma {:induction false} TotalAmountAppend(a: seq<Receipt>, b: seq<Receipt>)
    ensures TotalAmount(a + b) == TotalAmount(a) + TotalAmount(b)
    decreases |b|
  {
    if b == [] {
      assert a + b == a;
    } else {
      assert (a + b)[..|a + b| - 1] == a + b[..|b| - 1];
      TotalAmountAppend(a, b[..|b| - 1]);
    }
  }

  /** A receipt put at the front of the list adds its own amount to the total. */
  lemma TotalAmountCons(r: Receipt, rs: seq<Receipt>)
    ensures TotalAmount([r] + rs) == AmountValue(r.amount) + TotalAmount(rs)
  {
    TotalAmountAppend([r], rs);
    assert [r][..0] == [];
  }

  /** Amounts 10, NaN and 5.5 total 15.5. */
  lemma TotalAmountExample(r: Receipt)
    ensures TotalAmount([r.(amount := Num(10.0)), r.(amount := NaN), r.(amount := Num(5.5))]) == 15.5
  {
    var rs := [r.(amount := Num(10.0)), r.(amount := NaN), r.(amount := Num(5.5))];
    assert rs[..2][..1][..0] == [];
    assert TotalAmount(rs[..1]) == 10.0;
    assert TotalAmount(rs[..2]) == 10.0;
  }

  /** How many upcoming payments the dashboard lists. */
  const UpcomingLimit: nat := 6

  /**
    A receipt is upcoming when it has a due date, that date parses (`dateOf` is
    `new Date(...)`, None for an invalid date), and it is not before `now`.
   */
  predicate IsUpcoming(r: Receipt, now: int, dateOf: string -> Option<int>): (b: bool)
    ensures b ==> r.dueDate != "" && dateOf(r.dueDate) == Some(DueKey(dateOf)(r)) && DueKey(dateOf)(r) >= now
  {
    r.dueDate != "" && dateOf(r.dueDate).Some? && dateOf(r.dueDate).value >= now
  }

  /** The filter callback of `upcomingPayments`. */
  function UpcomingTest(now: int, dateOf: string -> Option<int>): Receipt -> bool {
    (r: Receipt) => IsUpcoming(r, now, dateOf)
  }

  /** The sort key of `upcomingPayments`: the parsed due date (only ever applied to upcoming receipts). */
  function DueKey(dateOf: string -> Option<int>): Receipt -> int {
    (r: Receipt) => dateOf(r.dueDate).GetOr(0)
  }

  /** The receipts that the filter of `upcomingPayments` keeps, in list order. */
  function UpcomingCandidates(rs: seq<Receipt>, now: int, dateOf: string -> Option<int>): seq<Receipt> {
    Filter(rs, UpcomingTest(now, dateOf))
  }

  /** `upcomingPayments`: filter, stable sort by due date, first six. */
  function UpcomingPayments(rs: seq<Receipt>, now: int, dateOf: string -> Option<int>): (u: seq<Receipt>)
    ensures |u| <= UpcomingLimit && |u| <= |rs|
    ensures |u| < UpcomingLimit ==> forall r :: r in rs && IsUpcoming(r, now, dateOf) ==> r in u
  {
    SortedCandidates(rs, now, dateOf);
    var q := UpcomingCandidates(rs, now, dateOf);
    var s := SortBy(q, DueKey(dateOf));
    assert |s| == |multiset(s)| == |multiset(q)| == |q|;
    Take(s, UpcomingLimit)
  }

  /** The sorted candidates are upcoming receipts of the list, each at most as often as the list has it. */
  lemma SortedCandidates(rs: seq<Receipt>, now: int, dateOf: string -> Option<int>)
    ensures var s := SortBy(UpcomingCandidates(rs, now, dateOf), DueKey(dateOf));
      && (forall x :: x in s <==> x in rs && IsUpcoming(x, now, dateOf))
      && multiset(s) <= multiset(rs)
  {
    var q := UpcomingCandidates(rs, now, dateOf);
    var s := SortBy(q, DueKey(dateOf));
    forall x ensures x in s <==> x in q {
      assert x in s <==> x in multiset(s);
    }
    forall x ensures multiset(q)[x] <= multiset(rs)[x] {
      FilterMultiset(rs, UpcomingTest(now, dateOf), x);
    }
  }

  /** At most six receipts are listed, all of them upcoming receipts of the list, none more often than the list has it. */
  lemma UpcomingPaymentsBounded(rs: seq<Receipt>, now: int, dateOf: string -> Option<int>)
    ensures var u := UpcomingPayments(rs, now, dateOf);
      && |u| <= UpcomingLimit
      && (forall i :: 0 <= i < |u| ==> u[i] in rs && IsUpcoming(u[i], now, dateOf))
      && multiset(u) <= multiset(rs)
  {
    var s := SortBy(UpcomingCandidates(rs, now, dateOf), DueKey(dateOf));
    var u := UpcomingPayments(rs, now, dateOf);
    SortedCandidates(rs, now, dateOf);
    assert s == u + s[|u|..];
    forall i | 0 <= i < |u| ensures u[i] in rs && IsUpcoming(u[i], now, dateOf) {
      assert u[i] in s;
    }
  }

  /** The listed receipts are in ascending order of due date. */
  lemma UpcomingPaymentsSorted(rs: seq<Receipt>, now: int, dateOf: string -> Option<int>)
    ensures var u := UpcomingPayments(rs, now, dateOf);
      forall i, j :: 0 <= i < j < |u| ==>
        IsUpcoming(u[i], now, dateOf) && IsUpcoming(u[j], now, dateOf)
        && dateOf(u[i].dueDate).value <= dateOf(u[j].dueDate).value
  {
    var s := SortBy(UpcomingCandidates(rs, now, dateOf), DueKey(dateOf));
    var u := UpcomingPayments(rs, now, dateOf);
    UpcomingPaymentsBounded(rs, now, dateOf);
    forall i, j | 0 <= i < j < |u|
      ensures dateOf(u[i].dueDate).value <= dateOf(u[j].dueDate).value
    {
      assert DueKey(dateOf)(s[i]) <= DueKey(dateOf)(s[j]);
    }
  }

  /**
    No upcoming receipt is passed over for a later one: an upcoming receipt that is not
    listed was crowded out by six listed receipts due no later than it.
   */
  lemma UpcomingPaymentsNoneSkipped(rs: seq<Receipt>, now: int, dateOf: string -> Option<int>, r: Receipt)
    requires r in rs && IsUpcoming(r, now, dateOf)
    ensures var u := UpcomingPayments(rs, now, dateOf);
      r !in u ==>
        |u| == UpcomingLimit
        && forall i :: 0 <= i < |u| ==> IsUpcoming(u[i], now, dateOf) && dateOf(u[i].dueDate).value <= dateOf(r.dueDate).value
  {
    var s := SortBy(UpcomingCandidates(rs, now, dateOf), DueKey(dateOf));
    var u := UpcomingPayments(rs, now, dateOf);
    SortedCandidates(rs, now, dateOf);
    UpcomingPaymentsBounded(rs, now, dateOf);
    if r !in u {
      var k :| 0 <= k < |s| && s[k] == r;
      assert u == s[..|u|];
      assert k >= |u|;
      forall i | 0 <= i < |u| ensures dateOf(u[i].dueDate).value <= dateOf(r.dueDate).value {
        assert DueKey(dateOf)(s[i]) <= DueKey(dateOf)(s[k]);
      }
    }
  }

  /**
    Receipts due at the same moment are listed in the order of the receipts list: for every
    due date, the listed receipts with that date are the first ones of the list with that date.
   */
  lemma UpcomingPaymentsStable(rs: seq<Receipt>, now: int, dateOf: string -> Option<int>, t: int)
    ensures var u := UpcomingPayments(rs, now, dateOf);
      var listed := WithKey(u, DueKey(dateOf), t);
      var same := WithKey(UpcomingCandidates(rs, now, dateOf), DueKey(dateOf), t);
      |listed| <= |same| && listed == same[..|listed|]
  {
    var s := SortBy(UpcomingCandidates(rs, now, dateOf), DueKey(dateOf));
    var u := UpcomingPayments(rs, now, dateOf);
    SortByStable(UpcomingCandidates(rs, now, dateOf), DueKey(dateOf), t);
    WithKeyPrefix(s, |u|, DueKey(dateOf), t);
  }

  /** Cutting a list short keeps a prefix of the elements of each key. */
  lemma {:induction false} WithKeyPrefix<T>(s: seq<T>, n: nat, key: T -> int, t: int)
    requires n <= |s|
    ensures |WithKey(s[..n], key, t)| <= |WithKey(s, key, t)|
    ensures WithKey(s[..n], key, t) == WithKey(s, key, t)[..|WithKey(s[..n], key, t)|]
  {
    if n > 0 {
      assert s[..n][1..] == s[1..][..n - 1];
      WithKeyPrefix(s[1..], n - 1, key, t);
    }
  }

  /** The test of `filteredReceipts`: the cursor pair matches and the title contains the search text, ignoring case. */
  predicate InView(r: Receipt, cat: Option<string>, sub: Option<string>, search: string): (b: bool)
    ensures cat.None? || sub.None? ==> !b
    ensures search == "" ==> (b <==> Some(r.category) == cat && Some(r.subCategory) == sub)
  {
    Some(r.category) == cat && Some(r.subCategory) == sub && Contains(ToLower(r.title), ToLower(search))
  }

  /** The filter callback of `filteredReceipts`. */
  function ViewTest(cat: Option<string>, sub: Option<string>, search: string): Receipt -> bool {
    (r: Receipt) => InView(r, cat, sub, search)
  }

  /** `filteredReceipts`. */
  function FilteredReceipts(rs: seq<Receipt>, cat: Option<string>, sub: Option<string>, search: string): (f: seq<Receipt>)
    ensures |f| <= |rs|
    ensures forall r :: r in f <==> r in rs && InView(r, cat, sub, search)
  {
    Filter(rs, ViewTest(cat, sub, search))
  }

  /**
    The receipt list shows, in list order, exactly the receipts filed under the cursor pair
    whose title contains the search text case-insensitively, each as often as the list has it.
   */
  lemma FilteredReceiptsSpec(rs: seq<Receipt>, cat: Option<string>, sub: Option<string>, search: string)
    ensures var f := FilteredReceipts(rs, cat, sub, search);
      && IsSubsequence(f, rs)
      && (forall r :: r in f ==> Some(r.category) == cat && Some(r.subCategory) == sub
                                 && Contains(ToLower(r.title), ToLower(search)))
      && (forall r :: multiset(f)[r] == if InView(r, cat, sub, search) then multiset(rs)[r] else 0)
  {
    FilterIsSubsequence(rs, ViewTest(cat, sub, search));
    forall r ensures multiset(FilteredReceipts(rs, cat, sub, search))[r] == if InView(r, cat, sub, search) then multiset(rs)[r] else 0 {
      FilterMultiset(rs, ViewTest(cat, sub, search), r);
    }
  }

  /** With an empty search box the list is every receipt of the cursor pair, in list order. */
  lemma FilteredReceiptsEmptySearch(rs: seq<Receipt>, cat: Option<string>, sub: Option<string>)
    ensures forall r :: r in FilteredReceipts(rs, cat, sub, "") <==> r in rs && Some(r.category) == cat && Some(r.subCategory) == sub
  {
  }
}
