/**
 * The ordering of the admin dashboard (app.py, lines 224-247).
 *
 * The SELECT returns the messages in `status ASC, timestamp DESC` order;
 * the page then shows them sorted by the rank of their effective priority,
 * highest first, with Python's stable `sorted(..., reverse=True)`. Such a
 * sort is characterised by `Bucketed`: the messages of rank 3 in query
 * order, then those of rank 2, then those of rank 1. `SortByPriority` is a
 * stable insertion sort proved to compute exactly that.
 */
module Dashboard {
  import opened Wrappers
  import opened Labels
  import Messages

  type Message = Messages.Message

  /** `priority_order.get(p, 2)`: high 3, medium 2, low 1, anything else 2. */
  function Rank(p: string): (r: int)
    ensures 1 <= r <= 3
  {
    if p == "high" then 3
    else if p == "medium" then 2
    else if p == "low" then 1
    else 2
  }

  /** `msg['final_priority'] or msg['predicted_priority']`. */
  function EffectivePriority(m: Message): (r: string)
    ensures m.finalPriority.Some? && m.finalPriority.value != "" ==> r == m.finalPriority.value
    ensures m.finalPriority.None? || m.finalPriority.value == "" ==> r == m.predictedPriority
  {
    if Messages.Truthy(m.finalPriority) then m.finalPriority.value else m.predictedPriority
  }

  /** `get_priority_value(msg)`. */
  function PriorityValue(m: Message): (r: int)
    ensures 1 <= r <= 3
    ensures r == 3 <==> EffectivePriority(m) == "high"
    ensures r == 1 <==> EffectivePriority(m) == "low"
  {
    Rank(EffectivePriority(m))
  }

  /** The ranks order the labels high, medium, low, and any other string ranks as medium. */
  lemma RankOrdersLabels(p: string)
    ensures Rank(LabelName(High)) == 3 && Rank(LabelName(Medium)) == 2 && Rank(LabelName(Low)) == 1
    ensures p !in ValidPriorities ==> Rank(p) == Rank(LabelName(Medium))
    ensures p in ValidPriorities ==> Rank(p) == Rank(LabelName(ParseLabel(p).value))
  {
    LabelNamesAreValidPriorities();
  }

  /** A rank identifies the label it came from. */
  lemma RankIsInjectiveOnLabels(l1: Label, l2: Label)
    ensures Rank(LabelName(l1)) == Rank(LabelName(l2)) <==> l1 == l2
  {
  }

  /** A final priority that was set overrides the prediction; otherwise the prediction counts. */
  lemma FinalPriorityOverrides(m: Message)
    ensures Messages.Truthy(m.finalPriority) ==> PriorityValue(m) == Rank(m.finalPriority.value)
    ensures !Messages.Truthy(m.finalPriority) ==> PriorityValue(m) == Rank(m.predictedPriority)
  {
  }

  /** Rows written by app.py always carry a valid effective priority, so the fallback rank is never needed. */
  lemma WellFormedRowsHaveValidPriority(m: Message)
    requires Messages.WellFormed(m)
    ensures EffectivePriority(m) in ValidPriorities
    ensures ParseLabel(EffectivePriority(m)).Some?
  {
    LabelNamesAreValidPriorities();
  }

  /** A freshly submitted message is ranked by its predicted label. */
  lemma NewMessageRankedByPrediction(userId: int, content: string, predicted: Label, now: string)
    ensures EffectivePriority(Messages.NewMessage(userId, content, predicted, now)) == LabelName(predicted)
  {
  }

  /** After an accepted update that sets a priority, the row is ranked by that priority. */
  lemma UpdatedPriorityTakesEffect(rows: map<int, Message>, messageId: int, status: Option<string>, priority: Option<string>)
    requires messageId in rows
    requires Messages.CheckUpdate(status, priority) == Messages.Accepted && Messages.Truthy(priority)
    ensures messageId in Messages.UpdatedRows(rows, messageId, status, priority)
    ensures EffectivePriority(Messages.UpdatedRows(rows, messageId, status, priority)[messageId]) == priority.value
  {
  }

  // ---------------------------------------------------------------------
  // The reference ordering, for any key whose values are ranks 1 to 3

  /** Every key along `ms` is a rank, 1 to 3. */
  predicate Ranked<T>(ms: seq<T>, key: T -> int) {
    forall i :: 0 <= i < |ms| ==> 1 <= key(ms[i]) <= 3
  }

  /** The elements of key `k`, in their order in `ms`. */
  function Filter<T>(ms: seq<T>, key: T -> int, k: int): seq<T> {
    if ms == [] then []
    else if key(ms[0]) == k then [ms[0]] + Filter(ms[1..], key, k)
    else Filter(ms[1..], key, k)
  }

  /** What a stable sort by a rank key, highest first, returns. */
  function Bucketed<T>(ms: seq<T>, key: T -> int): seq<T> {
    Filter(ms, key, 3) + Filter(ms, key, 2) + Filter(ms, key, 1)
  }

  /** Keys never increase along `ms`. */
  predicate NonIncreasing<T>(ms: seq<T>, key: T -> int) {
    forall i, j :: 0 <= i < j < |ms| ==> key(ms[i]) >= key(ms[j])
  }

  /** The block of key `k` holds only elements of key `k`, and no more elements than `ms`. */
  lemma {:induction false} FilterKeys<T>(ms: seq<T>, key: T -> int, k: int)
    ensures |Filter(ms, key, k)| <= |ms|
    ensures forall i :: 0 <= i < |Filter(ms, key, k)| ==> key(Filter(ms, key, k)[i]) == k
  {
    if ms != [] {
      FilterKeys(ms[1..], key, k);
    }
  }

  lemma {:induction false} FilterAppend<T>(a: seq<T>, b: seq<T>, key: T -> int, k: int)
    ensures Filter(a + b, key, k) == Filter(a, key, k) + Filter(b, key, k)
  {
    if a == [] {
      assert a + b == b;
    } else {
      assert (a + b)[1..] == a[1..] + b;
      FilterAppend(a[1..], b, key, k);
    }
  }

  lemma {:induction false} FilterOfUniform<T>(ms: seq<T>, key: T -> int, k: int)
    requires forall i :: 0 <= i < |ms| ==> key(ms[i]) == k
    ensures Filter(ms, key, k) == ms
  {
    if ms != [] {
      FilterOfUniform(ms[1..], key, k);
    }
  }

  lemma {:induction false} FilterOfNone<T>(ms: seq<T>, key: T -> int, k: int)
    requires forall i :: 0 <= i < |ms| ==> key(ms[i]) != k
    ensures Filter(ms, key, k) == []
  {
    if ms != [] {
      FilterOfNone(ms[1..], key, k);
    }
  }

  lemma {:induction false} FilterElementsFrom<T>(ms: seq<T>, key: T -> int, k: int)
    ensures forall x :: x in Filter(ms, key, k) ==> x in ms
  {
    if ms != [] {
      FilterElementsFrom(ms[1..], key, k);
    }
  }

  /** The reference ordering is a permutation of its input. */
  lemma {:induction false} BucketedIsPermutation<T>(ms: seq<T>, key: T -> int)
    requires Ranked(ms, key)
    ensures multiset(Bucketed(ms, key)) == multiset(ms)
  {
    if ms != [] {
      var x, rest := ms[0], ms[1..];
      assert Ranked(rest, key) by {
        forall i | 0 <= i < |rest| ensures 1 <= key(rest[i]) <= 3 {
          assert rest[i] == ms[i + 1];
        }
      }
      BucketedIsPermutation(rest, key);
      assert ms == [x] + rest;
      FilterFront(ms, key, 3);
      FilterFront(ms, key, 2);
      FilterFront(ms, key, 1);
      assert multiset(Bucketed(ms, key))
        == multiset(Filter(ms, key, 3)) + multiset(Filter(ms, key, 2)) + multiset(Filter(ms, key, 1));
      assert multiset(Bucketed(rest, key))
        == multiset(Filter(rest, key, 3)) + multiset(Filter(rest, key, 2)) + multiset(Filter(rest, key, 1));
    }
  }

  /** The block of key `k` of a non-empty sequence, by its first element. */
  lemma FilterFront<T>(ms: seq<T>, key: T -> int, k: int)
    requires ms != []
    ensures multiset(Filter(ms, key, k))
      == multiset(Filter(ms[1..], key, k)) + (if key(ms[0]) == k then multiset{ms[0]} else multiset{})
  {
  }

  /** Keys never increase along the reference ordering. */
  lemma BucketedIsNonIncreasing<T>(ms: seq<T>, key: T -> int)
    ensures NonIncreasing(Bucketed(ms, key), key)
  {
    FilterKeys(ms, key, 3);
    FilterKeys(ms, key, 2);
    FilterKeys(ms, key, 1);
    var a, b, c := Filter(ms, key, 3), Filter(ms, key, 2), Filter(ms, key, 1);
    var r := Bucketed(ms, key);
    forall i | 0 <= i < |r|
      ensures key(r[i]) == (if i < |a| then 3 else if i < |a| + |b| then 2 else 1)
    {
      if i < |a| {
        assert r[i] == a[i];
      } else if i < |a| + |b| {
        assert r[i] == b[i - |a|];
      } else {
        assert r[i] == c[i - |a| - |b|];
      }
    }
  }

  /** Stability: the elements of each key keep their relative order. */
  lemma BucketedIsStable<T>(ms: seq<T>, key: T -> int, k: int)
    requires Ranked(ms, key)
    ensures Filter(Bucketed(ms, key), key, k) == Filter(ms, key, k)
  {
    FilterKeys(ms, key, 3);
    FilterKeys(ms, key, 2);
    FilterKeys(ms, key, 1);
    var a, b, c := Filter(ms, key, 3), Filter(ms, key, 2), Filter(ms, key, 1);
    FilterAppend(a + b, c, key, k);
    FilterAppend(a, b, key, k);
    if k == 3 {
      FilterOfUniform(a, key, k);
      FilterOfNone(b, key, k);
      FilterOfNone(c, key, k);
    } else if k == 2 {
      FilterOfNone(a, key, k);
      FilterOfUniform(b, key, k);
      FilterOfNone(c, key, k);
    } else if k == 1 {
      FilterOfNone(a, key, k);
      FilterOfNone(b, key, k);
      FilterOfUniform(c, key, k);
    } else {
      FilterOfNone(a, key, k);
      FilterOfNone(b, key, k);
      FilterOfNone(c, key, k);
      FilterOfNone(ms, key, k);
    }
  }

  /** A ranked sequence whose keys never increase is its three blocks in turn. */
  lemma {:induction false} NonIncreasingIsBucketed<T>(r: seq<T>, key: T -> int)
    requires Ranked(r, key) && NonIncreasing(r, key)
    ensures r == Bucketed(r, key)
  {
    if r != [] {
      var x, rest := r[0], r[1..];
      var k := key(x);
      assert Ranked(rest, key) && NonIncreasing(rest, key) && forall i :: 0 <= i < |rest| ==> key(rest[i]) <= k by {
        forall i | 0 <= i < |rest| ensures rest[i] == r[i + 1] {
        }
      }
      NonIncreasingIsBucketed(rest, key);
      var a, b, c := Filter(rest, key, 3), Filter(rest, key, 2), Filter(rest, key, 1);
      assert r == [x] + (a + b + c);
      if k == 3 {
        assert Bucketed(r, key) == ([x] + a) + b + c;
      } else if k == 2 {
        FilterOfNone(rest, key, 3);
        assert Bucketed(r, key) == [] + ([x] + b) + c;
      } else {
        FilterOfNone(rest, key, 3);
        FilterOfNone(rest, key, 2);
        assert Bucketed(r, key) == [] + [] + ([x] + c);
      }
    }
  }

  /**
   * The reference ordering is the only one that is both non-increasing and
   * stable: any ranked sequence with those two properties equals it.
   */
  lemma StableSortIsUnique<T>(ms: seq<T>, r: seq<T>, key: T -> int)
    requires Ranked(r, key) && NonIncreasing(r, key)
    requires forall k :: Filter(r, key, k) == Filter(ms, key, k)
    ensures r == Bucketed(ms, key)
  {
    NonIncreasingIsBucketed(r, key);
    assert Filter(r, key, 3) == Filter(ms, key, 3);
    assert Filter(r, key, 2) == Filter(ms, key, 2);
    assert Filter(r, key, 1) == Filter(ms, key, 1);
  }

  /** Every pair of elements appears in the order `before` allows. */
  predicate InOrder<T>(ms: seq<T>, before: (T, T) -> bool) {
    forall i, j :: 0 <= i < j < |ms| ==> before(ms[i], ms[j])
  }

  lemma {:induction false} FilterKeepsOrder<T>(ms: seq<T>, key: T -> int, k: int, before: (T, T) -> bool)
    requires InOrder(ms, before)
    ensures InOrder(Filter(ms, key, k), before)
  {
    if ms != [] {
      var rest := ms[1..];
      assert InOrder(rest, before) by {
        forall i, j | 0 <= i < j < |rest| ensures before(rest[i], rest[j]) {
          assert rest[i] == ms[i + 1] && rest[j] == ms[j + 1];
        }
      }
      FilterKeepsOrder(rest, key, k, before);
      FilterElementsFrom(rest, key, k);
      var fr := Filter(rest, key, k);
      if key(ms[0]) == k {
        var f := [ms[0]] + fr;
        forall i, j | 0 <= i < j < |f| ensures before(f[i], f[j]) {
          if i == 0 {
            assert f[j] == fr[j - 1] && f[j] in rest;
            var t :| 0 <= t < |rest| && rest[t] == f[j];
            assert ms[t + 1] == f[j];
          } else {
            assert f[i] == fr[i - 1] && f[j] == fr[j - 1];
          }
        }
      }
    }
  }

  // ---------------------------------------------------------------------
  // The dashboard

  /** Every message's priority value is a rank. */
  lemma PriorityValuesAreRanks(ms: seq<Message>)
    ensures Ranked(ms, PriorityValue)
  {
  }

  /**
   * The dashboard shows a permutation of the queried messages, never
   * increasing in priority value, with the messages of each value in query
   * order.
   */
  lemma DashboardOrder(ms: seq<Message>, r: seq<Message>)
    requires r == Bucketed(ms, PriorityValue)
    ensures multiset(r) == multiset(ms)
    ensures NonIncreasing(r, PriorityValue)
    ensures forall k :: Filter(r, PriorityValue, k) == Filter(ms, PriorityValue, k)
  {
    PriorityValuesAreRanks(ms);
    BucketedIsPermutation(ms, PriorityValue);
    BucketedIsNonIncreasing(ms, PriorityValue);
    forall k ensures Filter(r, PriorityValue, k) == Filter(ms, PriorityValue, k) {
      BucketedIsStable(ms, PriorityValue, k);
    }
  }

  /** Any other ordering that is non-increasing in priority value and stable is the dashboard's. */
  lemma DashboardOrderIsUnique(ms: seq<Message>, r: seq<Message>)
    requires NonIncreasing(r, PriorityValue)
    requires forall k :: Filter(r, PriorityValue, k) == Filter(ms, PriorityValue, k)
    ensures r == Bucketed(ms, PriorityValue)
  {
    PriorityValuesAreRanks(r);
    StableSortIsUnique(ms, r, PriorityValue);
  }

  /** Lexicographic order of text, as sqlite's default collation compares it. */
  predicate TextLeq(a: string, b: string) {
    a == [] || (b != [] && (a[0] < b[0] || (a[0] == b[0] && TextLeq(a[1..], b[1..]))))
  }

  /** `ORDER BY m.status ASC, m.timestamp DESC`: `a` may come before `b`. */
  predicate QueryBefore(a: Message, b: Message) {
    (a.status != b.status && TextLeq(a.status, b.status))
    || (a.status == b.status && TextLeq(b.timestamp, a.timestamp))
  }

  /** Within each priority value the dashboard keeps the `status ASC, timestamp DESC` order of the query. */
  lemma RanksKeepQueryOrder(ms: seq<Message>, k: int)
    requires InOrder(ms, QueryBefore)
    ensures InOrder(Filter(Bucketed(ms, PriorityValue), PriorityValue, k), QueryBefore)
  {
    PriorityValuesAreRanks(ms);
    BucketedIsStable(ms, PriorityValue, k);
    FilterKeepsOrder(ms, PriorityValue, k, QueryBefore);
  }

  // ---------------------------------------------------------------------
  // The sort

  /**
   * `sorted(xs, key=key, reverse=True)` for a key whose values are ranks,
   * as a stable insertion sort: each element goes after every element
   * already placed whose key is at least its own.
   */
  method SortByKey<T>(xs: seq<T>, key: T -> int) returns (r: seq<T>)
    requires Ranked(xs, key)
    ensures r == Bucketed(xs, key)
  {
    r := [];
    for i := 0 to |xs|
      invariant r == Bucketed(xs[..i], key)
    {
      var x := xs[i];
      var k := key(x);
      ghost var n := AtLeast(xs[..i], key, k);
      AtLeastSplits(xs[..i], key, k);
      var j := 0;
      while j < |r| && key(r[j]) >= k
        invariant 0 <= j <= n
      {
        j := j + 1;
      }
      InsertAfterRank(xs[..i], x, key);
      assert xs[..i + 1] == xs[..i] + [x];
      r := r[..j] + [x] + r[j..];
    }
    assert xs[..|xs|] == xs;
  }

  /** The ordering `admin_dashboard` hands to the template. */
  method SortByPriority(ms: seq<Message>) returns (r: seq<Message>)
    ensures r == Bucketed(ms, PriorityValue)
  {
    PriorityValuesAreRanks(ms);
    r := SortByKey(ms, PriorityValue);
  }

  /** How many elements of `xs` have a key of at least `k`, for `k` from 1 to 3. */
  function AtLeast<T>(xs: seq<T>, key: T -> int, k: int): nat {
    |Filter(xs, key, 3)|
      + (if k <= 2 then |Filter(xs, key, 2)| else 0)
      + (if k <= 1 then |Filter(xs, key, 1)| else 0)
  }

  /** In the reference ordering, the first `AtLeast` elements have a key of at least `k`, and the rest below it. */
  lemma AtLeastSplits<T>(xs: seq<T>, key: T -> int, k: int)
    requires 1 <= k <= 3
    ensures AtLeast(xs, key, k) <= |Bucketed(xs, key)|
    ensures forall t :: 0 <= t < AtLeast(xs, key, k) ==> key(Bucketed(xs, key)[t]) >= k
    ensures forall t :: AtLeast(xs, key, k) <= t < |Bucketed(xs, key)| ==> key(Bucketed(xs, key)[t]) < k
  {
    BucketedIsNonIncreasing(xs, key);
    FilterKeys(xs, key, 3);
    FilterKeys(xs, key, 2);
    FilterKeys(xs, key, 1);
    var a, b, c := Filter(xs, key, 3), Filter(xs, key, 2), Filter(xs, key, 1);
    var r := Bucketed(xs, key);
    forall t | 0 <= t < |r|
      ensures key(r[t]) == (if t < |a| then 3 else if t < |a| + |b| then 2 else 1)
    {
      if t < |a| {
        assert r[t] == a[t];
      } else if t < |a| + |b| {
        assert r[t] == b[t - |a|];
      } else {
        assert r[t] == c[t - |a| - |b|];
      }
    }
  }

  /** Putting `m` after all elements of key at least its own extends the reference ordering by `m`. */
  lemma InsertAfterRank<T>(xs: seq<T>, m: T, key: T -> int)
    requires 1 <= key(m) <= 3
    ensures AtLeast(xs, key, key(m)) <= |Bucketed(xs, key)|
    ensures var n := AtLeast(xs, key, key(m));
      Bucketed(xs, key)[..n] + [m] + Bucketed(xs, key)[n..] == Bucketed(xs + [m], key)
  {
    var a, b, c := Filter(xs, key, 3), Filter(xs, key, 2), Filter(xs, key, 1);
    var k := key(m);
    AppendOne(xs, m, key, 3);
    AppendOne(xs, m, key, 2);
    AppendOne(xs, m, key, 1);
    if k == 3 {
      InsertBetween(a, b + c, m);
    } else if k == 2 {
      InsertBetween(a + b, c, m);
    } else {
      InsertBetween(a + b + c, [], m);
    }
  }

  /** Appending one element adds it to the block of its key and to no other. */
  lemma AppendOne<T>(xs: seq<T>, m: T, key: T -> int, k: int)
    ensures Filter(xs + [m], key, k) == Filter(xs, key, k) + (if key(m) == k then [m] else [])
  {
    FilterAppend(xs, [m], key, k);
    assert [m][1..] == [];
  }

  lemma InsertBetween<T>(p: seq<T>, q: seq<T>, m: T)
    ensures (p + q)[..|p|] + [m] + (p + q)[|p|..] == p + [m] + q
  {
    assert (p + q)[..|p|] == p;
    assert (p + q)[|p|..] == q;
  }
}
