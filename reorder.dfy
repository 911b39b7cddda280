/** `reorderPrompts`: a drag-and-drop move of one record, given as two
    positions of the (possibly search-filtered) view and carried out on the
    full list. */
module Reorder {
  import opened Strings
  import opened PromptList

  /** The two splices of `reorderPrompts`: the element at `from` is taken
      out, then put back in at `to`, where `to` was computed before the
      removal. */
  function Move<T>(s: seq<T>, from: nat, to: nat): (r: seq<T>)
    requires from < |s| && to < |s|
    ensures |r| == |s|
  {
    InsertAt(RemoveAt(s, from), to, s[from])
  }

  /** The moved element ends at `to`, and taking it out again gives the
      list with `from` taken out, so every other element keeps its relative
      order. */
  lemma {:induction false} MoveSpec<T>(s: seq<T>, from: nat, to: nat)
    requires from < |s| && to < |s|
    ensures Move(s, from, to)[to] == s[from]
    ensures RemoveAt(Move(s, from, to), to) == RemoveAt(s, from)
  {
    InsertAtSpec(RemoveAt(s, from), to, s[from]);
  }

  /** A move only rearranges: it neither adds nor drops an element. */
  lemma {:induction false} MovePermutes<T>(s: seq<T>, from: nat, to: nat)
    requires from < |s| && to < |s|
    ensures multiset(Move(s, from, to)) == multiset(s)
  {
    RemoveAtCount(s, from);
    InsertAtCount(RemoveAt(s, from), to, s[from]);
  }

  /** A move keeps distinct ids distinct, so a session of adds with fresh
      ids, edits, deletes and reorders never creates a colliding id. */
  lemma {:induction false} MoveKeepsUnique(ps: seq<Prompt>, from: nat, to: nat)
    requires UniqueIds(ps) && from < |ps| && to < |ps|
    ensures UniqueIds(Move(ps, from, to))
  {
    var rest := RemoveAt(ps, from);
    forall a, b | 0 <= a < b < |rest| ensures rest[a].id != rest[b].id {
      assert rest[a] == ps[if a < from then a else a + 1];
      assert rest[b] == ps[if b < from then b else b + 1];
    }
    forall k | 0 <= k < |rest| ensures rest[k].id != ps[from].id {
      assert rest[k] == ps[if k < from then k else k + 1];
    }
    InsertAtKeepsUnique(rest, to, ps[from]);
  }

  lemma {:induction false} InsertAtKeepsUnique(s: seq<Prompt>, i: nat, x: Prompt)
    requires UniqueIds(s) && i <= |s|
    requires forall k :: 0 <= k < |s| ==> s[k].id != x.id
    ensures UniqueIds(InsertAt(s, i, x))
  {
    var r := InsertAt(s, i, x);
    assert RemoveAt(r, i) == s;
    forall k | 0 <= k < |r| && k != i ensures r[k] == s[if k < i then k else k - 1] {
      var m := if k < i then k else k - 1;
      assert RemoveAt(r, i)[m] == r[k];
    }
    forall a, b | 0 <= a < b < |r| ensures r[a].id != r[b].id {
      if a != i && b != i {
        assert r[a] == s[if a < i then a else a - 1];
        assert r[b] == s[if b < i then b else b - 1];
      } else if a == i {
        assert r[b] == s[b - 1];
      } else {
        assert r[a] == s[a];
      }
    }
  }

  lemma {:induction false} RemoveAtCount<T>(s: seq<T>, i: nat)
    requires i < |s|
    ensures multiset(RemoveAt(s, i)) + multiset{s[i]} == multiset(s)
  {
    assert s == s[..i] + [s[i]] + s[i + 1..];
  }

  lemma {:induction false} InsertAtCount<T>(s: seq<T>, i: nat, x: T)
    requires i <= |s|
    ensures multiset(InsertAt(s, i, x)) == multiset(s) + multiset{x}
  {
    assert s == s[..i] + s[i..];
  }

  /** Moving an element onto its own position changes nothing. */
  lemma {:induction false} MoveInPlace<T>(s: seq<T>, i: nat)
    requires i < |s|
    ensures Move(s, i, i) == s
  {
    InsertRemoved(s, i);
  }

  /** Moving `x` down onto `y`'s position puts it right after `y`. */
  lemma {:induction false} MoveDown<T>(a: seq<T>, x: T, b: seq<T>, y: T, c: seq<T>)
    ensures Move(a + [x] + b + [y] + c, |a|, |a| + 1 + |b|) == a + b + [y] + [x] + c
  {
    var q := b + [y] + c;
    var p := a + b + [y];
    calc {
      Move(a + [x] + b + [y] + c, |a|, |a| + 1 + |b|);
      { assert a + [x] + b + [y] + c == a + [x] + q; }
      InsertAt(RemoveAt(a + [x] + q, |a|), |p|, x);
      { RemoveAtSplit(a, x, q); assert a + q == p + c; }
      InsertAt(p + c, |p|, x);
      { InsertAtSplit(p, x, c); }
      p + [x] + c;
    }
  }

  /** Moving `x` up onto `y`'s position puts it right before `y`. */
  lemma {:induction false} MoveUp<T>(a: seq<T>, y: T, b: seq<T>, x: T, c: seq<T>)
    ensures Move(a + [y] + b + [x] + c, |a| + 1 + |b|, |a|) == a + [x] + [y] + b + c
  {
    var p := a + [y] + b;
    var q := [y] + b + c;
    calc {
      Move(a + [y] + b + [x] + c, |a| + 1 + |b|, |a|);
      InsertAt(RemoveAt(p + [x] + c, |p|), |a|, x);
      { RemoveAtSplit(p, x, c); assert p + c == a + q; }
      InsertAt(a + q, |a|, x);
      { InsertAtSplit(a, x, q); }
      a + [x] + q;
      { assert a + [x] + q == a + [x] + [y] + b + c; }
      a + [x] + [y] + b + c;
    }
  }

  lemma {:induction false} RemoveAtSplit<T>(p: seq<T>, x: T, q: seq<T>)
    ensures RemoveAt(p + [x] + q, |p|) == p + q
  {
    var s := p + [x] + q;
    assert s[..|p|] == p && s[|p| + 1..] == q;
  }

  lemma {:induction false} InsertAtSplit<T>(p: seq<T>, x: T, q: seq<T>)
    ensures InsertAt(p + q, |p|, x) == p + [x] + q
  {
    var s := p + q;
    assert s[..|p|] == p && s[|p|..] == q;
  }

  /** The view of a list cut into five blocks around two matching records. */
  lemma {:induction false} FilterBlocks(a: seq<Prompt>, x: Prompt, b: seq<Prompt>, y: Prompt, c: seq<Prompt>, term: string)
    requires Matches(x, term) && Matches(y, term)
    ensures Filter(a + [x] + b + [y] + c, term)
            == Filter(a, term) + [x] + Filter(b, term) + [y] + Filter(c, term)
  {
    SelectOne(x, p => Matches(p, term));
    SelectOne(y, p => Matches(p, term));
    FilterConcat(a + [x] + b + [y], c, term);
    FilterConcat(a + [x] + b, [y], term);
    FilterConcat(a + [x], b, term);
    FilterConcat(a, [x], term);
  }

  /** Filtering commutes with moving a matching `x` down onto a matching `y`. */
  lemma {:induction false} FilterMoveDown(a: seq<Prompt>, x: Prompt, b: seq<Prompt>, y: Prompt, c: seq<Prompt>, term: string)
    requires Matches(x, term) && Matches(y, term)
    ensures Filter(Move(a + [x] + b + [y] + c, |a|, |a| + 1 + |b|), term)
            == Move(Filter(a, term) + [x] + Filter(b, term) + [y] + Filter(c, term),
                    |Filter(a, term)|, |Filter(a, term)| + 1 + |Filter(b, term)|)
  {
    var fa, fb, fc := Filter(a, term), Filter(b, term), Filter(c, term);
    MoveDown(a, x, b, y, c);
    assert a + b + [y] + [x] + c == (a + b) + [y] + [] + [x] + c;
    FilterBlocks(a + b, y, [], x, c, term);
    FilterConcat(a, b, term);
    assert fa + fb + [y] + [] + [x] + fc == fa + fb + [y] + [x] + fc;
    MoveDown(fa, x, fb, y, fc);
  }

  /** Filtering commutes with moving a matching `x` up onto a matching `y`. */
  lemma {:induction false} FilterMoveUp(a: seq<Prompt>, y: Prompt, b: seq<Prompt>, x: Prompt, c: seq<Prompt>, term: string)
    requires Matches(x, term) && Matches(y, term)
    ensures Filter(Move(a + [y] + b + [x] + c, |a| + 1 + |b|, |a|), term)
            == Move(Filter(a, term) + [y] + Filter(b, term) + [x] + Filter(c, term),
                    |Filter(a, term)| + 1 + |Filter(b, term)|, |Filter(a, term)|)
  {
    var fa, fb, fc := Filter(a, term), Filter(b, term), Filter(c, term);
    MoveUp(a, y, b, x, c);
    MoveUp(fa, y, fb, x, fc);
    FilterPairBefore(a, x, y, b, c, term);
  }

  /** The view of the list a move up leaves behind. */
  lemma {:induction false} FilterPairBefore(a: seq<Prompt>, x: Prompt, y: Prompt, b: seq<Prompt>, c: seq<Prompt>, term: string)
    requires Matches(x, term) && Matches(y, term)
    ensures Filter(a + [x] + [y] + b + c, term)
            == Filter(a, term) + [x] + [y] + Filter(b, term) + Filter(c, term)
  {
    FilterPairFirst(a, x, y, b + c, term);
    assert a + [x] + [y] + b + c == a + [x] + [y] + (b + c);
    FilterConcat(b, c, term);
    assert Filter(a, term) + [x] + [y] + (Filter(b, term) + Filter(c, term))
           == Filter(a, term) + [x] + [y] + Filter(b, term) + Filter(c, term);
  }

  /** The view of a list with two adjacent matching records after a prefix. */
  lemma {:induction false} FilterPairFirst(a: seq<Prompt>, x: Prompt, y: Prompt, d: seq<Prompt>, term: string)
    requires Matches(x, term) && Matches(y, term)
    ensures Filter(a + [x] + [y] + d, term) == Filter(a, term) + [x] + [y] + Filter(d, term)
  {
    var fa, fd := Filter(a, term), Filter(d, term);
    calc {
      Filter(a + [x] + [y] + d, term);
      { FilterConcat(a + [x] + [y], d, term); }
      Filter(a + [x] + [y], term) + fd;
      { FilterConcat(a + [x], [y], term); SelectOne(y, p => Matches(p, term)); }
      Filter(a + [x], term) + [y] + fd;
      { FilterConcat(a, [x], term); SelectOne(x, p => Matches(p, term)); }
      fa + [x] + [y] + fd;
    }
  }

  /** The number of view rows before and including a matching record. */
  lemma {:induction false} FilterCountAround(a: seq<Prompt>, y: Prompt, b: seq<Prompt>, term: string)
    requires Matches(y, term)
    ensures |Filter(a + [y] + b, term)| == |Filter(a, term)| + 1 + |Filter(b, term)|
  {
    FilterConcat(a + [y], b, term);
    FilterConcat(a, [y], term);
    SelectOne(y, p => Matches(p, term));
  }

  /** Moving a visible record between the list positions of two visible
      records moves it between the corresponding positions of the view: the
      view position of list position `i` is the number of visible records
      before `i`. */
  lemma {:induction false} MoveFiltered(ps: seq<Prompt>, term: string, i: nat, j: nat)
    requires i < |ps| && j < |ps| && Matches(ps[i], term) && Matches(ps[j], term)
    ensures |Filter(ps[..i], term)| < |Filter(ps, term)|
    ensures |Filter(ps[..j], term)| < |Filter(ps, term)|
    ensures Filter(Move(ps, i, j), term)
            == Move(Filter(ps, term), |Filter(ps[..i], term)|, |Filter(ps[..j], term)|)
  {
    FilterSplit(ps, term, i);
    FilterSplit(ps, term, j);
    if i == j {
      MoveInPlace(ps, i);
      MoveInPlace(Filter(ps, term), |Filter(ps[..i], term)|);
    } else if i < j {
      MoveFilteredDown(ps, term, i, j);
    } else {
      MoveFilteredUp(ps, term, i, j);
    }
  }

  lemma {:induction false} MoveFilteredDown(ps: seq<Prompt>, term: string, i: nat, j: nat)
    requires i < j < |ps| && Matches(ps[i], term) && Matches(ps[j], term)
    requires |Filter(ps[..i], term)| < |Filter(ps, term)| && |Filter(ps[..j], term)| < |Filter(ps, term)|
    ensures Filter(Move(ps, i, j), term)
            == Move(Filter(ps, term), |Filter(ps[..i], term)|, |Filter(ps[..j], term)|)
  {
    var a, x, b, y, c := ps[..i], ps[i], ps[i + 1..j], ps[j], ps[j + 1..];
    assert ps[..j] == a + [x] + b;
    FilterCountAround(a, x, b, term);
    assert ps == a + [x] + b + [y] + c;
    FilterMoveDownWhole(ps, a, x, b, y, c, term);
  }

  lemma {:induction false} FilterMoveDownWhole(ps: seq<Prompt>, a: seq<Prompt>, x: Prompt, b: seq<Prompt>, y: Prompt, c: seq<Prompt>, term: string)
    requires ps == a + [x] + b + [y] + c && Matches(x, term) && Matches(y, term)
    ensures |Filter(a, term)| + 1 + |Filter(b, term)| < |Filter(ps, term)|
    ensures Filter(Move(ps, |a|, |a| + 1 + |b|), term)
            == Move(Filter(ps, term), |Filter(a, term)|, |Filter(a, term)| + 1 + |Filter(b, term)|)
  {
    FilterBlocks(a, x, b, y, c, term);
    FilterMoveDown(a, x, b, y, c, term);
  }

  lemma {:induction false} MoveFilteredUp(ps: seq<Prompt>, term: string, i: nat, j: nat)
    requires j < i < |ps| && Matches(ps[i], term) && Matches(ps[j], term)
    requires |Filter(ps[..i], term)| < |Filter(ps, term)| && |Filter(ps[..j], term)| < |Filter(ps, term)|
    ensures Filter(Move(ps, i, j), term)
            == Move(Filter(ps, term), |Filter(ps[..i], term)|, |Filter(ps[..j], term)|)
  {
    var a, y, b, x, c := ps[..j], ps[j], ps[j + 1..i], ps[i], ps[i + 1..];
    assert ps[..i] == a + [y] + b;
    FilterCountAround(a, y, b, term);
    assert ps == a + [y] + b + [x] + c;
    FilterMoveUpWhole(ps, a, y, b, x, c, term);
  }

  lemma {:induction false} FilterMoveUpWhole(ps: seq<Prompt>, a: seq<Prompt>, y: Prompt, b: seq<Prompt>, x: Prompt, c: seq<Prompt>, term: string)
    requires ps == a + [y] + b + [x] + c && Matches(x, term) && Matches(y, term)
    ensures |Filter(a, term)| + 1 + |Filter(b, term)| < |Filter(ps, term)|
    ensures Filter(Move(ps, |a| + 1 + |b|, |a|), term)
            == Move(Filter(ps, term), |Filter(a, term)| + 1 + |Filter(b, term)|, |Filter(a, term)|)
  {
    FilterBlocks(a, y, b, x, c, term);
    FilterMoveUp(a, y, b, x, c, term);
  }

  /** The list position `reorderPrompts` resolves visible position `k` to:
      with a search term, the first list position holding the id of the
      record shown at `k`; with none, `k` itself, the view being the list. */
  function RealIndex(ps: seq<Prompt>, term: string, k: nat): (i: nat)
    requires k < |Filter(ps, term)|
    ensures i < |ps| && ps[i].id == Filter(ps, term)[k].id
    ensures Lower(term) == [] ==> i == k
    ensures Lower(term) != [] ==> forall j :: 0 <= j < i ==> ps[j].id != ps[i].id
  {
    if Lower(term) == [] then
      FilterEmptyTerm(ps, term);
      k
    else
      var v := Filter(ps, term);
      FilterSpec(ps, term);
      assert v[k] in ps;
      FindIndex(ps, v[k].id)
  }

  /** The list after `reorderPrompts(from, to)`; `from` and `to` are
      positions of the view. The records are the same; the record at the
      resolved `from` lands at the resolved `to` while the others keep
      their order, and with no search term the resolved positions are
      `from` and `to` themselves. */
  function ReorderList(ps: seq<Prompt>, term: string, from: nat, to: nat): (r: seq<Prompt>)
    requires from < |Filter(ps, term)| && to < |Filter(ps, term)|
    ensures |r| == |ps| && multiset(r) == multiset(ps)
    ensures var i, j := RealIndex(ps, term, from), RealIndex(ps, term, to);
            r[j] == ps[i] && RemoveAt(r, j) == RemoveAt(ps, i)
    ensures Lower(term) == [] ==> r[to] == ps[from] && RemoveAt(r, to) == RemoveAt(ps, from)
  {
    var i, j := RealIndex(ps, term, from), RealIndex(ps, term, to);
    MovePermutes(ps, i, j);
    Move(ps, i, j)
  }

  /** With unique ids the resolved position holds exactly the record the
      view shows at `k`, and `k` records of the view come before it. */
  lemma {:induction false} RealIndexPosition(ps: seq<Prompt>, term: string, k: nat)
    requires UniqueIds(ps) && k < |Filter(ps, term)|
    ensures ps[RealIndex(ps, term, k)] == Filter(ps, term)[k]
    ensures |Filter(ps[..RealIndex(ps, term, k)], term)| == k
  {
    var v := Filter(ps, term);
    var i := RealIndex(ps, term, k);
    if Lower(term) == [] {
      FilterEmptyTerm(ps, term);
      FilterEmptyTerm(ps[..i], term);
    } else {
      SameIdSameRecord(ps, term, k, i);
      ViewPositionOf(ps, term, k, i);
    }
  }

  /** With unique ids, the record holding the id of the view's `k`-th row
      is that row. */
  lemma {:induction false} SameIdSameRecord(ps: seq<Prompt>, term: string, k: nat, i: nat)
    requires UniqueIds(ps) && k < |Filter(ps, term)| && i < |ps|
    requires ps[i].id == Filter(ps, term)[k].id
    ensures ps[i] == Filter(ps, term)[k]
  {
    var v := Filter(ps, term);
    FilterSpec(ps, term);
    assert v[k] in ps;
    var j :| 0 <= j < |ps| && ps[j] == v[k];
    assert ps[j].id == ps[i].id;
  }

  /** With unique ids, the view's `k`-th row has exactly `k` rows before it
      in the list. */
  lemma {:induction false} ViewPositionOf(ps: seq<Prompt>, term: string, k: nat, i: nat)
    requires UniqueIds(ps) && k < |Filter(ps, term)| && i < |ps|
    requires ps[i] == Filter(ps, term)[k]
    ensures |Filter(ps[..i], term)| == k
  {
    var v := Filter(ps, term);
    assert Matches(ps[i], term) by {
      FilterSpec(ps, term);
      assert v[k] in v;
    }
    FilterSplit(ps, term, i);
    var before, after := Filter(ps[..i], term), Filter(ps[i + 1..], term);
    FilterSpec(ps[..i], term);
    FilterSpec(ps[i + 1..], term);
    assert forall q :: q in ps[..i] ==> q.id != ps[i].id;
    assert forall q :: q in ps[i + 1..] ==> q.id != ps[i].id;
    assert v[k] !in before && v[k] !in after;
    PositionOfUnique(before, ps[i], after, k);
  }

  /** In `p + [x] + q` with `x` in neither part, `x` sits only at `|p|`. */
  lemma {:induction false} PositionOfUnique<T>(p: seq<T>, x: T, q: seq<T>, k: nat)
    requires k < |p + [x] + q| && (p + [x] + q)[k] == x && x !in p && x !in q
    ensures k == |p|
  {
  }

  /** The drop lands the dragged record at the target's place in the view,
      and the other visible records keep their order: reordering the list
      by resolved positions is moving within the view. Ids must be unique,
      as records created by the add form are. */
  lemma {:induction false} ReorderVisible(ps: seq<Prompt>, term: string, from: nat, to: nat)
    requires UniqueIds(ps)
    requires from < |Filter(ps, term)| && to < |Filter(ps, term)|
    ensures Filter(ReorderList(ps, term, from, to), term) == Move(Filter(ps, term), from, to)
  {
    var v := Filter(ps, term);
    var i, j := RealIndex(ps, term, from), RealIndex(ps, term, to);
    RealIndexPosition(ps, term, from);
    RealIndexPosition(ps, term, to);
    FilterSpec(ps, term);
    assert v[from] in v && v[to] in v;
    MoveFiltered(ps, term, i, j);
  }

  /** `[A, B, C, D]` searched for "A" shows `[A, C]` (A by its title, C by
      its content): dragging A onto C gives `[B, C, A, D]`, A landing right
      after C, where applying the view's positions to the full list would
      have given `[B, A, C, D]`. */
  lemma {:induction false} ReorderExample()
    ensures var a, b, c, d := Prompt(1, "a", "x", ""), Prompt(2, "b", "y", ""),
                              Prompt(3, "c", "a", ""), Prompt(4, "d", "w", "");
            Filter([a, b, c, d], "A") == [a, c]
            && ReorderList([a, b, c, d], "A", 0, 1) == [b, c, a, d]
            && Move([a, b, c, d], 0, 1) == [b, a, c, d]
  {
    var a, b, c, d := Prompt(1, "a", "x", ""), Prompt(2, "b", "y", ""),
                      Prompt(3, "c", "a", ""), Prompt(4, "d", "w", "");
    LetterMatches(a, 'A');
    LetterMatches(b, 'A');
    LetterMatches(c, 'A');
    LetterMatches(d, 'A');
    FilterFour(a, b, c, d, "A");
    ReorderSkipsHidden(a, b, c, d, "A");
    MoveFirstFour(a, b, c, d);
  }

  /** Whether a record with a one-letter title and content matches a
      one-letter term. */
  lemma {:induction false} LetterMatches(p: Prompt, t: char)
    requires |p.title| == 1 && |p.content| == 1
    ensures Matches(p, [t]) <==> LowerChar(p.title[0]) == LowerChar(t) || LowerChar(p.content[0]) == LowerChar(t)
  {
    assert Lower(p.title) == [LowerChar(p.title[0])];
    assert Lower(p.content) == [LowerChar(p.content[0])];
    assert Lower([t]) == [LowerChar(t)];
    LetterContains(LowerChar(p.title[0]), LowerChar(t));
    LetterContains(LowerChar(p.content[0]), LowerChar(t));
  }

  lemma {:induction false} LetterContains(u: char, v: char)
    ensures Contains([u], [v]) <==> u == v
  {
    assert [u][1..] == [];
    assert !Contains([], [v]);
    assert [v] <= [u] ==> [v][0] == [u][0];
  }

  /** The view of a list of three records. */
  lemma {:induction false} FilterThree(p: Prompt, q: Prompt, r: Prompt, term: string)
    ensures Filter([p, q, r], term)
            == (if Matches(p, term) then [p] else []) + (if Matches(q, term) then [q] else [])
               + (if Matches(r, term) then [r] else [])
  {
    assert [p, q, r] == [p] + [q] + [r];
    FilterConcat([p] + [q], [r], term);
    FilterConcat([p], [q], term);
    SelectOne(p, p => Matches(p, term));
    SelectOne(q, p => Matches(p, term));
    SelectOne(r, p => Matches(p, term));
  }

  /** The view of a list of four records. */
  lemma {:induction false} FilterFour(p: Prompt, q: Prompt, r: Prompt, s: Prompt, term: string)
    ensures Filter([p, q, r, s], term)
            == (if Matches(p, term) then [p] else []) + (if Matches(q, term) then [q] else [])
               + (if Matches(r, term) then [r] else []) + (if Matches(s, term) then [s] else [])
  {
    assert [p, q, r, s] == [p, q, r] + [s];
    FilterConcat([p, q, r], [s], term);
    FilterThree(p, q, r, term);
    SelectOne(s, p => Matches(p, term));
  }

  /** Dragging the first of two visible records onto the second, with a
      hidden record between them, puts it right after the second one. */
  lemma {:induction false} ReorderSkipsHidden(a: Prompt, b: Prompt, c: Prompt, d: Prompt, term: string)
    requires Filter([a, b, c, d], term) == [a, c] && Lower(term) != []
    requires a.id != b.id && a.id != c.id && b.id != c.id
    ensures ReorderList([a, b, c, d], term, 0, 1) == [b, c, a, d]
  {
    var ps := [a, b, c, d];
    LookupThird(a, b, c, d);
    ReorderAt(ps, term, 0, 1, 0, 2);
    MoveFirstFour(a, b, c, d);
  }

  lemma {:induction false} MoveFirstFour(a: Prompt, b: Prompt, c: Prompt, d: Prompt)
    ensures Move([a, b, c, d], 0, 2) == [b, c, a, d]
    ensures Move([a, b, c, d], 0, 1) == [b, a, c, d]
  {
    assert RemoveAt([a, b, c, d], 0) == [b, c, d];
    assert InsertAt([b, c, d], 2, a) == [b, c, a, d];
    assert InsertAt([b, c, d], 1, a) == [b, a, c, d];
  }

  lemma {:induction false} LookupThird(a: Prompt, b: Prompt, c: Prompt, d: Prompt)
    requires a.id != b.id && a.id != c.id && b.id != c.id
    ensures FindIndex([a, b, c, d], a.id) == 0 && FindIndex([a, b, c, d], c.id) == 2
  {
    var ps := [a, b, c, d];
    assert ps[1..] == [b, c, d] && [b, c, d][1..] == [c, d];
    assert FindIndex([c, d], c.id) == 0;
  }

  /** The list after a reorder is the move between the resolved positions. */
  lemma {:induction false} ReorderAt(ps: seq<Prompt>, term: string, from: nat, to: nat, i: nat, j: nat)
    requires from < |Filter(ps, term)| && to < |Filter(ps, term)|
    requires RealIndex(ps, term, from) == i && RealIndex(ps, term, to) == j
    ensures ReorderList(ps, term, from, to) == Move(ps, i, j)
  {
  }

  /** Distinct records sharing an id (say, from two files of different
      origin, or a hand-edited one) defeat the lookup: with a hidden record
      X sharing the visible A's id, dragging A onto C moves X instead and
      the view stays `[A, C]`. */
  lemma {:induction false} ReorderCollidingIds()
    ensures var x, a, c := Prompt(1, "b", "y", ""), Prompt(1, "a", "x", ""), Prompt(2, "c", "a", "");
            Filter([x, a, c], "a") == [a, c]
            && ReorderList([x, a, c], "a", 0, 1) == [a, c, x]
            && Filter([a, c, x], "a") == [a, c] != Move([a, c], 0, 1)
  {
    var x, a, c := Prompt(1, "b", "y", ""), Prompt(1, "a", "x", ""), Prompt(2, "c", "a", "");
    LetterMatches(x, 'a');
    LetterMatches(a, 'a');
    LetterMatches(c, 'a');
    HiddenSharedId(x, a, c, "a");
  }

  /** A hidden record before a visible one with the same id takes the
      visible one's place in the move, and the view does not change. */
  lemma {:induction false} HiddenSharedId(x: Prompt, a: Prompt, c: Prompt, term: string)
    requires !Matches(x, term) && Matches(a, term) && Matches(c, term) && Lower(term) != []
    requires x.id == a.id && c.id != a.id
    ensures Filter([x, a, c], term) == [a, c]
            && ReorderList([x, a, c], term, 0, 1) == [a, c, x]
            && Filter([a, c, x], term) == [a, c] != Move([a, c], 0, 1)
  {
    HiddenFirstAndLast(x, a, c, term);
    ReorderSharedId(x, a, c, term);
    MoveSwapsPair(a, c);
  }

  lemma {:induction false} HiddenFirstAndLast(x: Prompt, a: Prompt, c: Prompt, term: string)
    requires !Matches(x, term) && Matches(a, term) && Matches(c, term)
    ensures Filter([x, a, c], term) == [a, c] && Filter([a, c, x], term) == [a, c]
  {
    FilterThree(x, a, c, term);
    FilterThree(a, c, x, term);
  }

  lemma {:induction false} MoveSwapsPair(a: Prompt, c: Prompt)
    requires a != c
    ensures Move([a, c], 0, 1) != [a, c]
  {
    assert Move([a, c], 0, 1)[1] == a;
  }

  /** The lookup of a colliding id: when a record `x` that the view hides
      comes before the visible `a` and shares its id, the drag of `a` onto
      `c` moves `x` to `c`'s position. */
  lemma {:induction false} ReorderSharedId(x: Prompt, a: Prompt, c: Prompt, term: string)
    requires Filter([x, a, c], term) == [a, c] && Lower(term) != []
    requires x.id == a.id && c.id != a.id
    ensures ReorderList([x, a, c], term, 0, 1) == [a, c, x]
  {
    var ps := [x, a, c];
    LookupShared(x, a, c);
    ReorderAt(ps, term, 0, 1, 0, 2);
    MoveFirstToLast(x, a, c);
  }

  lemma {:induction false} LookupShared(x: Prompt, a: Prompt, c: Prompt)
    requires x.id == a.id && c.id != a.id
    ensures FindIndex([x, a, c], a.id) == 0 && FindIndex([x, a, c], c.id) == 2
  {
    var ps := [x, a, c];
    assert ps[1..] == [a, c] && [a, c][1..] == [c];
    assert FindIndex([c], c.id) == 0;
  }

  lemma {:induction false} MoveFirstToLast(x: Prompt, a: Prompt, c: Prompt)
    ensures Move([x, a, c], 0, 2) == [a, c, x]
  {
    assert RemoveAt([x, a, c], 0) == [a, c];
    assert InsertAt([a, c], 2, x) == [a, c, x];
  }

  /** Importing the file `[r, c]` twice into an empty list prepends exact
      copies (`Popup.PopupState.Import`), giving `[r, c, r, c]`, all of it
      shown when both match. Dragging the
      second `r` onto the second `c` resolves both rows to the first copies,
      so the list becomes `[c, r, r, c]` where moving the view's rows would
      give `[r, c, c, r]`. */
  lemma {:induction false} ImportedTwice(r: Prompt, c: Prompt, term: string)
    requires Matches(r, term) && Matches(c, term) && Lower(term) != []
    requires r.id != c.id
    ensures Filter([r, c, r, c], term) == [r, c, r, c]
    ensures ReorderList([r, c, r, c], term, 2, 3) == [c, r, r, c]
    ensures Filter([c, r, r, c], term) == [c, r, r, c]
    ensures Move(Filter([r, c, r, c], term), 2, 3) == [r, c, c, r] != [c, r, r, c]
  {
    CopiesShown(r, c, term);
    ReorderCopies(r, c, term);
    assert [r, c, c, r][0] != [c, r, r, c][0];
  }

  lemma {:induction false} CopiesShown(r: Prompt, c: Prompt, term: string)
    requires Matches(r, term) && Matches(c, term)
    ensures Filter([r, c, r, c], term) == [r, c, r, c]
    ensures Filter([c, r, r, c], term) == [c, r, r, c]
  {
    FilterFour(r, c, r, c, term);
    FilterFour(c, r, r, c, term);
  }

  /** The drag of the second copy of `r` onto the second copy of `c` moves
      the first copy of `r` onto the first copy of `c`. */
  lemma {:induction false} ReorderCopies(r: Prompt, c: Prompt, term: string)
    requires Filter([r, c, r, c], term) == [r, c, r, c] && Lower(term) != []
    requires r.id != c.id
    ensures ReorderList([r, c, r, c], term, 2, 3) == [c, r, r, c]
    ensures Move([r, c, r, c], 2, 3) == [r, c, c, r]
  {
    ResolveCopies(r, c, term);
    ReorderAt([r, c, r, c], term, 2, 3, 0, 1);
    MoveCopies(r, c);
  }

  /** Both copies of a record resolve to the first one. */
  lemma {:induction false} ResolveCopies(r: Prompt, c: Prompt, term: string)
    requires Filter([r, c, r, c], term) == [r, c, r, c] && Lower(term) != []
    requires r.id != c.id
    ensures RealIndex([r, c, r, c], term, 2) == 0 && RealIndex([r, c, r, c], term, 3) == 1
  {
    var ps := [r, c, r, c];
    var i, j := RealIndex(ps, term, 2), RealIndex(ps, term, 3);
    assert ps[0].id == r.id == ps[i].id;
    assert ps[0].id != c.id && ps[1].id == c.id == ps[j].id;
  }

  lemma {:induction false} MoveCopies(r: Prompt, c: Prompt)
    ensures Move([r, c, r, c], 0, 1) == [c, r, r, c]
    ensures Move([r, c, r, c], 2, 3) == [r, c, c, r]
  {
    assert RemoveAt([r, c, r, c], 0) == [c, r, c];
    assert InsertAt([c, r, c], 1, r) == [c, r, r, c];
    assert RemoveAt([r, c, r, c], 2) == [r, c, c];
    assert InsertAt([r, c, c], 3, r) == [r, c, c, r];
  }
}
