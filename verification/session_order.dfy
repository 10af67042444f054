/** The ordering of a workout's history: a stable sort of sessions by date
    (src/storage.ts, `getSessionsByWorkout`). */
module SessionOrder {
  import opened Types
  import opened Seqs
  import opened Lex

  /** Every session is dated no later than every session after it. */
  predicate SortedByDate(s: seq<Session>) {
    forall i, j :: 0 <= i < j < |s| ==> LexLe(s[i].date, s[j].date)
  }

  /** Selects the sessions dated `d`. */
  function OnDate(d: string): Session -> bool {
    (x: Session) => x.date == d
  }

  /** Places `x` directly after the last session of `t` dated no later than `x`:
      a later session moves in front of `x` only when its date is strictly later. */
  function Insert(t: seq<Session>, x: Session): (r: seq<Session>)
    ensures |r| == |t| + 1 && x in r
    decreases |t|
  {
    if |t| == 0 then [x]
    else if LexLe(t[|t| - 1].date, x.date) then t + [x]
    else Insert(t[..|t| - 1], x) + [t[|t| - 1]]
  }

  /** A stable sort by date. A stable sort's result is fully determined by the
      comparison, so this insertion sort stands for `Array.prototype.sort`. */
  function SortByDate(s: seq<Session>): (r: seq<Session>)
    ensures |r| == |s|
    decreases |s|
  {
    if |s| == 0 then [] else Insert(SortByDate(s[..|s| - 1]), s[|s| - 1])
  }

  lemma {:induction false} InsertPermutes(t: seq<Session>, x: Session)
    ensures multiset(Insert(t, x)) == multiset(t) + multiset{x}
    decreases |t|
  {
    if |t| > 0 && !LexLe(t[|t| - 1].date, x.date) {
      InsertPermutes(t[..|t| - 1], x);
      assert t == t[..|t| - 1] + [t[|t| - 1]];
    }
  }

  /** `r` is `t` with `x` placed at position `k`, after every session dated no
      later than `x` and before every session dated strictly later. */
  predicate PlacedAt(t: seq<Session>, x: Session, k: int, r: seq<Session>) {
    && 0 <= k <= |t|
    && r == t[..k] + [x] + t[k..]
    && (forall i :: 0 <= i < k ==> LexLe(t[i].date, x.date))
    && (forall i :: k <= i < |t| ==> !LexLe(t[i].date, x.date))
  }

  /** A sorted `t` whose last session is dated no later than `x` has `x`
      placed at its end. */
  lemma PlacedAtEnd(t: seq<Session>, x: Session)
    requires SortedByDate(t) && |t| > 0 && LexLe(t[|t| - 1].date, x.date)
    ensures PlacedAt(t, x, |t|, t + [x])
  {
    assert t + [x] == t[..|t|] + [x] + t[|t|..];
    forall i | 0 <= i < |t|
      ensures LexLe(t[i].date, x.date)
    {
      if i < |t| - 1 {
        LexLeTransitive(t[i].date, t[|t| - 1].date, x.date);
      }
    }
  }

  /** A placement survives appending a session dated strictly later than `x`. */
  lemma PlacedAtSnoc(t: seq<Session>, last: Session, x: Session, k: int, r: seq<Session>)
    requires PlacedAt(t, x, k, r) && !LexLe(last.date, x.date)
    ensures PlacedAt(t + [last], x, k, r + [last])
  {
    var t' := t + [last];
    assert t'[..k] == t[..k];
    assert t'[k..] == t[k..] + [last];
  }

  /** On a sorted `t`, `Insert` places `x` after every session dated no later
      and before every session dated strictly later. */
  lemma {:induction false} InsertPosition(t: seq<Session>, x: Session) returns (k: int)
    requires SortedByDate(t)
    ensures PlacedAt(t, x, k, Insert(t, x))
    decreases |t|
  {
    if |t| == 0 {
      k := 0;
      assert Insert(t, x) == t[..0] + [x] + t[0..];
    } else if LexLe(t[|t| - 1].date, x.date) {
      k := |t|;
      PlacedAtEnd(t, x);
    } else {
      var t', last := t[..|t| - 1], t[|t| - 1];
      k := InsertPosition(t', x);
      PlacedAtSnoc(t', last, x, k, Insert(t', x));
      assert t == t' + [last];
    }
  }

  lemma InsertSorted(t: seq<Session>, x: Session)
    requires SortedByDate(t)
    ensures SortedByDate(Insert(t, x))
  {
    var k := InsertPosition(t, x);
    var r := Insert(t, x);
    forall i, j | 0 <= i < j < |r|
      ensures LexLe(r[i].date, r[j].date)
    {
      if j < k || i > k {
        var i', j' := if i < k then i else i - 1, if j < k then j else j - 1;
        assert r[i] == t[i'] && r[j] == t[j'];
      } else if i == k {
        assert r[j] == t[j - 1];
        LexLeTotal(t[j - 1].date, x.date);
      } else if j == k {
        assert r[i] == t[i];
      } else {
        assert r[i] == t[i] && r[j] == t[j - 1];
      }
    }
  }

  /** The one-element filter: `[x]` when `x` is dated `d`, otherwise empty. */
  lemma FilterSingle(x: Session, d: string)
    ensures Filter([x], OnDate(d)) == if x.date == d then [x] else []
  {
    assert [x][1..] == [];
  }

  /** When at most one of `x` and `last` is selected, appending `last` on
      both sides of a filter equation lets `x` stay at the end. */
  lemma FilterSnocSwap<T(!new)>(r: seq<T>, t: seq<T>, x: T, last: T, p: T -> bool)
    requires Filter([x], p) == [] || Filter([last], p) == []
    requires Filter(r, p) == Filter(t, p) + Filter([x], p)
    ensures Filter(r + [last], p) == Filter(t + [last], p) + Filter([x], p)
  {
    FilterAppend(r, [last], p);
    FilterAppend(t, [last], p);
    var a, xs, ls := Filter(t, p), Filter([x], p), Filter([last], p);
    if xs == [] {
      assert a + xs + ls == a + ls;
    } else {
      assert a + xs + ls == a + xs;
    }
  }

  /** If `u` filters like `t`, then `u` followed by `last` filters like `t`
      followed by `last`. */
  lemma FilterSnocCongruent<T(!new)>(u: seq<T>, v: seq<T>, t: seq<T>, last: T, p: T -> bool)
    requires Filter(u, p) == Filter(t, p)
    requires Filter(v, p) == Filter(u, p) + Filter([last], p)
    ensures Filter(v, p) == Filter(t + [last], p)
  {
    FilterAppend(t, [last], p);
  }

  /** Among sessions of equal date, `Insert` keeps `x` after those already in `t`. */
  lemma {:induction false} InsertStable(t: seq<Session>, x: Session, d: string)
    ensures Filter(Insert(t, x), OnDate(d)) == Filter(t, OnDate(d)) + Filter([x], OnDate(d))
    decreases |t|
  {
    if |t| == 0 {
      assert Insert(t, x) == [x];
      assert Filter(t, OnDate(d)) == [];
    } else if LexLe(t[|t| - 1].date, x.date) {
      assert Insert(t, x) == t + [x];
      FilterAppend(t, [x], OnDate(d));
    } else {
      var t', last := t[..|t| - 1], t[|t| - 1];
      // x and last cannot both be dated d, since last is strictly later.
      assert Filter([x], OnDate(d)) == [] || Filter([last], OnDate(d)) == [] by {
        LexLeReflexive(x.date);
        FilterSingle(x, d);
        FilterSingle(last, d);
      }
      InsertStable(t', x, d);
      assert Insert(t, x) == Insert(t', x) + [last];
      assert t == t' + [last];
      FilterSnocSwap(Insert(t', x), t', x, last, OnDate(d));
    }
  }

  /** Sorting rearranges the sessions and loses or duplicates none. */
  lemma {:induction false} SortPermutes(s: seq<Session>)
    ensures multiset(SortByDate(s)) == multiset(s)
    decreases |s|
  {
    if |s| > 0 {
      var s', last := s[..|s| - 1], s[|s| - 1];
      var t := SortByDate(s');
      calc {
        multiset(SortByDate(s));
        multiset(Insert(t, last));
      == { InsertPermutes(t, last); }
        multiset(t) + multiset{last};
      == { SortPermutes(s'); }
        multiset(s') + multiset{last};
      == { MultisetSnoc(s); }
        multiset(s);
      }
    }
  }

  lemma {:induction false} SortSorted(s: seq<Session>)
    ensures SortedByDate(SortByDate(s))
    decreases |s|
  {
    if |s| > 0 {
      SortSorted(s[..|s| - 1]);
      InsertSorted(SortByDate(s[..|s| - 1]), s[|s| - 1]);
    }
  }

  /** Sessions sharing a date keep their relative order. */
  lemma {:induction false} SortStableOn(s: seq<Session>, d: string)
    ensures Filter(SortByDate(s), OnDate(d)) == Filter(s, OnDate(d))
    decreases |s|
  {
    if |s| > 0 {
      var s', last := s[..|s| - 1], s[|s| - 1];
      var u := SortByDate(s');
      assert SortByDate(s) == Insert(u, last);
      SortStableOn(s', d);
      InsertStable(u, last, d);
      FilterSnocCongruent(u, SortByDate(s), s', last, OnDate(d));
      assert s == s' + [last];
    }
  }

  lemma SortStable(s: seq<Session>)
    ensures forall d :: Filter(SortByDate(s), OnDate(d)) == Filter(s, OnDate(d))
  {
    forall d {
      SortStableOn(s, d);
    }
  }

  /** Sorting three sessions when the first is dated after both others and
      the second no later than the third. */
  lemma SortThree(a: Session, b: Session, c: Session)
    requires !LexLe(a.date, b.date) && LexLe(b.date, c.date) && !LexLe(a.date, c.date)
    ensures SortByDate([a, b, c]) == [b, c, a]
  {
    assert [a, b, c][..2] == [a, b] && [a, b][..1] == [a] && [b, a][..1] == [b];
    assert SortByDate([a]) == [a];
    assert SortByDate([a, b]) == Insert([a], b) == [b, a];
    assert Insert([b, a], c) == Insert([b], c) + [a] == [b, c, a];
  }

  /** Three sessions logged out of date order come back oldest first. */
  lemma SortExample(a: Session, b: Session, c: Session)
    requires a.date == "2024-03-01" && b.date == "2024-01-15" && c.date == "2024-02-10"
    ensures SortByDate([a, b, c]) == [b, c, a]
  {
    LexLeFirstDifference(b.date, a.date, 6);
    LexLeFirstDifference(b.date, c.date, 6);
    LexLeFirstDifference(c.date, a.date, 6);
    SortThree(a, b, c);
  }
}
