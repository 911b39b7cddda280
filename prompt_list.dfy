/** The prompt records and the side-effect-free list operations the popup
    builds its handlers from: `filter`, `find`, `findIndex` and `splice`. */
module PromptList {
  import opened Strings

  datatype Option<T> = None | Some(value: T)

  /** One stored prompt, `{id, title, content, createdAt}`; the id is the
      `Date.now()` of its creation, the timestamp its `toISOString()`. */
  datatype Prompt = Prompt(id: int, title: string, content: string, createdAt: string)

  /** No two records of the list share an id. */
  predicate UniqueIds(ps: seq<Prompt>) {
    forall i, j :: 0 <= i < j < |ps| ==> ps[i].id != ps[j].id
  }

  // ---------------------------------------------------------------------
  // Array.prototype.filter
  // ---------------------------------------------------------------------

  /** `s.filter(keep)`: every element `keep` accepts, as often as `s` holds
      it, and nothing else. */
  function Select<T(!new)>(s: seq<T>, keep: T -> bool): (r: seq<T>)
    ensures |r| <= |s|
  {
    if s == [] then [] else (if keep(s[0]) then [s[0]] else []) + Select(s[1..], keep)
  }

  /** The filter keeps every element `keep` accepts, as often as `s` holds
      it, and nothing else. */
  lemma {:induction false} SelectCount<T(!new)>(s: seq<T>, keep: T -> bool)
    ensures forall x :: multiset(Select(s, keep))[x] == if keep(x) then multiset(s)[x] else 0
    decreases |s|
  {
    if s != [] {
      SelectCount(s[1..], keep);
      assert s == [s[0]] + s[1..];
    }
  }

  /** Membership in a filtered list. */
  lemma {:induction false} SelectMembers<T(!new)>(s: seq<T>, keep: T -> bool)
    ensures forall x :: x in Select(s, keep) <==> x in s && keep(x)
  {
    var r := Select(s, keep);
    SelectCount(s, keep);
    forall x ensures x in r <==> x in s && keep(x) {
      assert x in r <==> multiset(r)[x] > 0;
      assert x in s <==> multiset(s)[x] > 0;
    }
  }

  /** `r` can be obtained from `s` by deleting elements. */
  predicate IsSubsequence<T(==)>(r: seq<T>, s: seq<T>)
    decreases |s|
  {
    r == [] || (s != [] && ((r[0] == s[0] && IsSubsequence(r[1..], s[1..])) || IsSubsequence(r, s[1..])))
  }

  /** `filter` keeps the survivors in their original order. */
  lemma {:induction false} SelectIsSubsequence<T(!new)>(s: seq<T>, keep: T -> bool)
    ensures IsSubsequence(Select(s, keep), s)
    decreases |s|
  {
    if s != [] {
      SelectIsSubsequence(s[1..], keep);
      var r := Select(s, keep);
      if keep(s[0]) {
        assert r[0] == s[0] && r[1..] == Select(s[1..], keep);
      } else {
        assert r == Select(s[1..], keep);
      }
    }
  }

  /** Filtering a concatenation filters each part. */
  lemma {:induction false} SelectConcat<T(!new)>(a: seq<T>, b: seq<T>, keep: T -> bool)
    ensures Select(a + b, keep) == Select(a, keep) + Select(b, keep)
    decreases |a|
  {
    if a != [] {
      SelectConcat(a[1..], b, keep);
      assert (a + b)[0] == a[0] && (a + b)[1..] == a[1..] + b;
    } else {
      assert a + b == b;
    }
  }

  /** A filter that accepts every element returns the list unchanged. */
  lemma {:induction false} SelectAll<T(!new)>(s: seq<T>, keep: T -> bool)
    requires forall k :: 0 <= k < |s| ==> keep(s[k])
    ensures Select(s, keep) == s
    decreases |s|
  {
    if s != [] {
      SelectAll(s[1..], keep);
    }
  }

  /** Two tests that agree on every element filter alike. */
  lemma {:induction false} SelectSame<T(!new)>(s: seq<T>, f: T -> bool, g: T -> bool)
    requires forall x :: f(x) == g(x)
    ensures Select(s, f) == Select(s, g)
    decreases |s|
  {
    if s != [] {
      SelectSame(s[1..], f, g);
    }
  }

  /** Filtering a list with one element. */
  lemma {:induction false} SelectOne<T(!new)>(x: T, keep: T -> bool)
    ensures Select([x], keep) == if keep(x) then [x] else []
  {
    assert [x][1..] == [];
  }

  // ---------------------------------------------------------------------
  // The search box
  // ---------------------------------------------------------------------

  /** The test `renderPromptList` applies to each record: the lower-cased
      title or the lower-cased content includes the lower-cased term. */
  predicate Matches(p: Prompt, term: string): (m: bool)
    ensures Lower(term) == [] ==> m
  {
    var t := Lower(term);
    Contains(Lower(p.title), t) || Contains(Lower(p.content), t)
  }

  /** The records the list shows for the search box text `term`. */
  function Filter(ps: seq<Prompt>, term: string): (r: seq<Prompt>)
    ensures |r| <= |ps|
  {
    Select(ps, p => Matches(p, term))
  }

  /** The view is exactly the matching records of the list, each as often as
      the list holds it, in the list's order. */
  lemma {:induction false} FilterSpec(ps: seq<Prompt>, term: string)
    ensures forall p :: p in Filter(ps, term) <==> p in ps && Matches(p, term)
    ensures forall p :: multiset(Filter(ps, term))[p] == if Matches(p, term) then multiset(ps)[p] else 0
    ensures IsSubsequence(Filter(ps, term), ps)
  {
    SelectCount(ps, p => Matches(p, term));
    SelectMembers(ps, p => Matches(p, term));
    SelectIsSubsequence(ps, p => Matches(p, term));
  }

  /** An empty search box (or one whose lower-cased text is empty) shows the
      whole list in its order. */
  lemma {:induction false} FilterEmptyTerm(ps: seq<Prompt>, term: string)
    requires Lower(term) == []
    ensures Filter(ps, term) == ps
  {
    forall k | 0 <= k < |ps| ensures Matches(ps[k], term) {
      ContainsEmpty(Lower(ps[k].title));
    }
    SelectAll(ps, p => Matches(p, term));
  }

  /** The search ignores the case of the term: typing it in upper or lower
      case shows the same records. */
  lemma {:induction false} FilterCaseInsensitive(ps: seq<Prompt>, term: string)
    ensures Filter(ps, term) == Filter(ps, Lower(term))
  {
    LowerIdempotent(term);
    SelectSame(ps, p => Matches(p, term), p => Matches(p, Lower(term)));
  }

  /** The view of a concatenation is the concatenation of the views. */
  lemma {:induction false} FilterConcat(a: seq<Prompt>, b: seq<Prompt>, term: string)
    ensures Filter(a + b, term) == Filter(a, term) + Filter(b, term)
  {
    SelectConcat(a, b, p => Matches(p, term));
  }

  /** Splits the view around a matching record at full-list position `i`. */
  lemma {:induction false} FilterSplit(ps: seq<Prompt>, term: string, i: nat)
    requires i < |ps| && Matches(ps[i], term)
    ensures Filter(ps, term) == Filter(ps[..i], term) + [ps[i]] + Filter(ps[i + 1..], term)
  {
    assert ps == ps[..i] + [ps[i]] + ps[i + 1..];
    FilterConcat(ps[..i] + [ps[i]], ps[i + 1..], term);
    FilterConcat(ps[..i], [ps[i]], term);
    SelectOne(ps[i], p => Matches(p, term));
  }

  // ---------------------------------------------------------------------
  // Array.prototype.findIndex and find, by id
  // ---------------------------------------------------------------------

  /** `ps.findIndex(p => p.id === id)`: the first position holding the id,
      or -1 when no record has it. */
  function FindIndex(ps: seq<Prompt>, id: int): (i: int)
    ensures -1 <= i < |ps|
    ensures i == -1 <==> forall k :: 0 <= k < |ps| ==> ps[k].id != id
    ensures 0 <= i ==> ps[i].id == id && forall k :: 0 <= k < i ==> ps[k].id != id
  {
    if ps == [] then -1
    else if ps[0].id == id then 0
    else
      var j := FindIndex(ps[1..], id);
      if j == -1 then -1 else j + 1
  }

  /** `ps.find(p => p.id === id)`: the first record holding the id. */
  function Find(ps: seq<Prompt>, id: int): (r: Option<Prompt>)
    ensures r.None? <==> forall p :: p in ps ==> p.id != id
    ensures r.Some? ==> r.value in ps && r.value.id == id
    ensures r.Some? ==> exists i :: 0 <= i < |ps| && ps[i] == r.value && forall k :: 0 <= k < i ==> ps[k].id != id
  {
    var i := FindIndex(ps, id);
    if i == -1 then None else Some(ps[i])
  }

  // ---------------------------------------------------------------------
  // Removal by id (the edit and delete branches)
  // ---------------------------------------------------------------------

  /** `ps.filter(p => p.id !== id)`. */
  function RemoveId(ps: seq<Prompt>, id: int): (r: seq<Prompt>)
    ensures |r| <= |ps|
  {
    Select(ps, (p: Prompt) => p.id != id)
  }

  /** Removal keeps exactly the records with another id, in their order;
      every record with the id goes, so none is left. */
  lemma {:induction false} RemoveIdSpec(ps: seq<Prompt>, id: int)
    ensures forall p :: p in RemoveId(ps, id) <==> p in ps && p.id != id
    ensures forall p :: multiset(RemoveId(ps, id))[p] == if p.id != id then multiset(ps)[p] else 0
    ensures IsSubsequence(RemoveId(ps, id), ps)
  {
    SelectCount(ps, (p: Prompt) => p.id != id);
    SelectMembers(ps, (p: Prompt) => p.id != id);
    SelectIsSubsequence(ps, (p: Prompt) => p.id != id);
  }

  /** Removing an id the list does not hold changes nothing. */
  lemma {:induction false} RemoveIdAbsent(ps: seq<Prompt>, id: int)
    requires FindIndex(ps, id) == -1
    ensures RemoveId(ps, id) == ps
  {
    SelectAll(ps, (p: Prompt) => p.id != id);
  }

  /** With unique ids, removing a present id removes the one record at its
      position, so the list gets one shorter. */
  lemma {:induction false} RemoveIdUnique(ps: seq<Prompt>, id: int)
    requires UniqueIds(ps) && FindIndex(ps, id) != -1
    ensures RemoveId(ps, id) == RemoveAt(ps, FindIndex(ps, id))
    ensures |RemoveId(ps, id)| == |ps| - 1
  {
    var i := FindIndex(ps, id);
    SelectDropsOnly(ps, (p: Prompt) => p.id != id, i);
  }

  /** A filter that rejects the element at `i` and accepts every other one
      removes just that element. */
  lemma {:induction false} SelectDropsOnly<T(!new)>(s: seq<T>, keep: T -> bool, i: nat)
    requires i < |s| && !keep(s[i])
    requires forall k :: 0 <= k < |s| && k != i ==> keep(s[k])
    ensures Select(s, keep) == s[..i] + s[i + 1..]
  {
    var before, after := s[..i], s[i + 1..];
    assert Select(before, keep) == before by {
      assert forall k :: 0 <= k < |before| ==> before[k] == s[k];
      SelectAll(before, keep);
    }
    assert Select(after, keep) == after by {
      assert forall k :: 0 <= k < |after| ==> after[k] == s[i + 1 + k];
      SelectAll(after, keep);
    }
    assert s == before + [s[i]] + after;
    calc {
      Select(s, keep);
      Select(before + [s[i]] + after, keep);
      { SelectConcat(before + [s[i]], after, keep); }
      Select(before + [s[i]], keep) + after;
      { SelectConcat(before, [s[i]], keep); SelectOne(s[i], keep); }
      before + [] + after;
    }
  }

  /** Removal by id keeps the remaining ids distinct. */
  lemma {:induction false} RemoveIdKeepsUnique(ps: seq<Prompt>, id: int)
    requires UniqueIds(ps)
    ensures UniqueIds(RemoveId(ps, id))
  {
    SelectKeepsUnique(ps, (p: Prompt) => p.id != id);
  }

  lemma {:induction false} SelectKeepsUnique(ps: seq<Prompt>, keep: Prompt -> bool)
    requires UniqueIds(ps)
    ensures UniqueIds(Select(ps, keep))
    decreases |ps|
  {
    if ps != [] {
      var tail := ps[1..];
      assert UniqueIds(tail) by {
        forall i, j | 0 <= i < j < |tail| ensures tail[i].id != tail[j].id {
          assert tail[i] == ps[i + 1] && tail[j] == ps[j + 1];
        }
      }
      SelectKeepsUnique(tail, keep);
      var rest := Select(tail, keep);
      if keep(ps[0]) {
        SelectMembers(tail, keep);
        var r := [ps[0]] + rest;
        forall i, j | 0 <= i < j < |r| ensures r[i].id != r[j].id {
          assert r[j] == rest[j - 1];
          if i == 0 {
            assert rest[j - 1] in tail;
            var k :| 0 <= k < |tail| && tail[k] == rest[j - 1];
            assert ps[k + 1] == r[j];
          } else {
            assert r[i] == rest[i - 1];
          }
        }
      }
    }
  }

  /** The add handler's new record keeps the ids distinct when its id is
      not yet in the list. */
  lemma {:induction false} PrependFreshKeepsUnique(p: Prompt, ps: seq<Prompt>)
    requires UniqueIds(ps) && FindIndex(ps, p.id) == -1
    ensures UniqueIds([p] + ps)
  {
    var r := [p] + ps;
    forall i, j | 0 <= i < j < |r| ensures r[i].id != r[j].id {
      assert r[j] == ps[j - 1];
      if i > 0 {
        assert r[i] == ps[i - 1];
      }
    }
  }

  // ---------------------------------------------------------------------
  // Array.prototype.splice with one element
  // ---------------------------------------------------------------------

  /** `s.splice(i, 1)` on an in-range index: the element at `i` is taken out
      and everything after it moves down one place. */
  function RemoveAt<T>(s: seq<T>, i: nat): (r: seq<T>)
    requires i < |s|
    ensures |r| == |s| - 1
  {
    s[..i] + s[i + 1..]
  }

  /** The elements before `i` stay put and the ones after it move down one
      place. */
  lemma {:induction false} RemoveAtSpec<T>(s: seq<T>, i: nat)
    requires i < |s|
    ensures forall k :: 0 <= k < |s| - 1 ==> RemoveAt(s, i)[k] == if k < i then s[k] else s[k + 1]
  {
    var r := RemoveAt(s, i);
    forall k | 0 <= k < |s| - 1 ensures r[k] == if k < i then s[k] else s[k + 1] {
      if k < i {
        assert r[k] == s[..i][k];
      } else {
        assert r[k] == s[i + 1..][k - i];
      }
    }
  }

  /** `s.splice(i, 0, x)` on an index at most the length. */
  function InsertAt<T>(s: seq<T>, i: nat, x: T): (r: seq<T>)
    requires i <= |s|
    ensures |r| == |s| + 1
  {
    s[..i] + [x] + s[i..]
  }

  /** `x` lands at `i`, and taking it out again gives back `s`. */
  lemma {:induction false} InsertAtSpec<T>(s: seq<T>, i: nat, x: T)
    requires i <= |s|
    ensures InsertAt(s, i, x)[i] == x
    ensures RemoveAt(InsertAt(s, i, x), i) == s
  {
    var r := InsertAt(s, i, x);
    assert r[..i] == s[..i] && r[i + 1..] == s[i..];
    assert s == s[..i] + s[i..];
  }

  /** Putting a removed element back where it was restores the list. */
  lemma {:induction false} InsertRemoved<T>(s: seq<T>, i: nat)
    requires i < |s|
    ensures InsertAt(RemoveAt(s, i), i, s[i]) == s
  {
    var r := RemoveAt(s, i);
    assert r[..i] == s[..i];
    assert r[i..] == s[i + 1..];
    assert s == s[..i] + [s[i]] + s[i + 1..];
  }
}
