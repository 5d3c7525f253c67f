/** The batched id lookup of evidence verification (crates/logscope-app/src/case.rs): one
    bounded stream per dataset, capped at four rows per wanted id. */
module IdLookup {
  import opened Sequences
  import opened Sorting

  function Among(ids: set<string>): string -> bool { (r: string) => r in ids }

  /** The record ids the id-set query streams, in the order the engine yields them. */
  function Stream(ids: set<string>, rows: seq<string>): seq<string> { Filter(Among(ids), rows) }

  /** Ids seen within the row budget of `4 * want`. */
  ghost function Found(ids: set<string>, rows: seq<string>): set<string> {
    set r | r in Upto(4 * |ids|, Stream(ids, rows))
  }

  /** What the lookup is for. */
  function Existing(ids: set<string>, rows: seq<string>): set<string> {
    set r | r in ids && r in rows
  }

  method LookupExistingIds(ids: set<string>, rows: seq<string>) returns (found: set<string>)
    ensures found == Found(ids, rows)
  {
    var stream := Stream(ids, rows);
    OnlyWanted(ids, rows);
    hide Filter, Stream;
    var budget := if |stream| <= 4 * |ids| then |stream| else 4 * |ids|;
    found := {};
    var i := 0;
    while i < budget
      invariant i <= budget <= |stream|
      invariant found == (set r | r in stream[..i])
    {
      found := found + {stream[i]};
      assert stream[..i + 1] == stream[..i] + [stream[i]];
      i := i + 1;
      if |found| >= |ids| {
        NothingMoreToFind(found, ids);
        forall r | r in stream[..budget] ensures r in stream[..i] { assert r in stream; assert r in found; }
        forall r | r in stream[..i] ensures r in stream[..budget] {
          var j :| 0 <= j < i && stream[j] == r;
          assert stream[..budget][j] == r;
        }
        assert found == set r | r in stream[..budget];
        break;
      }
    }
    assert |stream| <= 4 * |ids| ==> stream[..budget] == stream;
  }

  lemma OnlyWanted(ids: set<string>, rows: seq<string>)
    ensures forall r :: r in Stream(ids, rows) <==> r in ids && r in rows
  {
    forall r ensures r in Stream(ids, rows) <==> r in ids && r in rows { FilterMember(Among(ids), rows, r); }
  }

  lemma NothingMoreToFind(found: set<string>, ids: set<string>)
    requires found <= ids && |found| >= |ids|
    ensures found == ids
  {
    if found != ids {
      var r :| r in ids && r !in found;
      SubsetSize(found, ids - {r});
    }
  }

  lemma {:induction false} SubsetSize<T>(a: set<T>, b: set<T>)
    requires a <= b
    ensures |a| <= |b|
    decreases |a|
  {
    if a != {} {
      var x :| x in a;
      SubsetSize(a - {x}, b - {x});
    }
  }

  /** The lookup never invents an id: what it reports exists. */
  lemma FoundExists(ids: set<string>, rows: seq<string>)
    ensures Found(ids, rows) <= Existing(ids, rows)
  {
    OnlyWanted(ids, rows);
  }

  // ---- when the budget is enough -------------------------------------------------------

  function Rivals(ids: set<string>, rows: seq<string>, id: string): int {
    |Stream(ids, rows)| - multiset(rows)[id]
  }

  lemma {:induction false} CountWithin(s: seq<string>, id: string)
    ensures multiset(s)[id] <= |s|
    ensures multiset(s)[id] == |Filter(Among({id}), s)|
  {
    if s != [] {
      CountWithin(s[..|s|-1], id);
      assert s == s[..|s|-1] + [s[|s|-1]];
    }
  }

  /** An id with fewer rival rows than the budget cannot be pushed out of it. */
  lemma FewRivalsFound(ids: set<string>, rows: seq<string>, id: string)
    requires id in Existing(ids, rows) && Rivals(ids, rows, id) < 4 * |ids|
    ensures id in Found(ids, rows)
  {
    var s, cap := Stream(ids, rows), 4 * |ids|;
    FilterMultiset(Among(ids), rows, id);
    OnlyWanted(ids, rows);
    if |s| > cap {
      hide Stream, Filter;
      CountWithin(s[cap..], id);
      assert s == s[..cap] + s[cap..];
      assert multiset(s)[id] == multiset(s[..cap])[id] + multiset(s[cap..])[id];
      assert id in multiset(s[..cap]);
    }
  }

  function Except(id: string): string -> bool { (r: string) => r != id }

  /** The rows with every occurrence of one id moved to the end. */
  function Worst(rows: seq<string>, id: string): seq<string> {
    Filter(Except(id), rows) + Filter(Among({id}), rows)
  }

  lemma WorstPermutes(rows: seq<string>, id: string)
    ensures multiset(Worst(rows, id)) == multiset(rows)
  {
    hide Filter;
    forall r ensures multiset(Worst(rows, id))[r] == multiset(rows)[r] {
      FilterMultiset(Except(id), rows, r);
      FilterMultiset(Among({id}), rows, r);
    }
    SameCounts(multiset(Worst(rows, id)), multiset(rows));
  }

  /** An id with as many rivals as the budget is missed when they all come first. */
  lemma ManyRivalsMissed(ids: set<string>, rows: seq<string>, id: string)
    requires id in Existing(ids, rows) && Rivals(ids, rows, id) >= 4 * |ids|
    ensures id !in Found(ids, Worst(rows, id))
  {
    var others, own, cap := Filter(Except(id), rows), Filter(Among({id}), rows), 4 * |ids|;
    var first, s := Filter(Among(ids), others), Stream(ids, Worst(rows, id));
    WorstPermutes(rows, id);
    FilterPermutes(Among(ids), Worst(rows, id), rows);
    PermutedLength(s, Stream(ids, rows));
    FilterConcat(Among(ids), others, own);
    CountWithin(rows, id);
    assert s == first + Filter(Among(ids), own);
    forall r ensures r in first ==> r != id {
      FilterMember(Among(ids), others, r);
      FilterMember(Except(id), rows, r);
    }
    hide Filter;
    assert multiset(rows)[id] >= 1 by { assert id in multiset(rows); }
    assert |s| > cap && |first| >= cap;
    assert s[..cap] == first[..cap];
    forall r | r in first[..cap] ensures r != id { assert r in first; }
  }

  /** The bounded lookup is exact for every row order if and only if no existing wanted id has
      four rows per wanted id belonging to others. */
  lemma ExactForEveryOrder(ids: set<string>, rows: seq<string>)
    ensures (forall order :: multiset(order) == multiset(rows) ==> Found(ids, order) == Existing(ids, rows))
      <==> (forall id :: id in Existing(ids, rows) ==> Rivals(ids, rows, id) < 4 * |ids|)
  {
    if forall id :: id in Existing(ids, rows) ==> Rivals(ids, rows, id) < 4 * |ids| {
      forall order | multiset(order) == multiset(rows) ensures Found(ids, order) == Existing(ids, rows) {
        SameExisting(ids, order, rows);
        FoundExists(ids, order);
        forall id | id in Existing(ids, rows) ensures id in Found(ids, order) {
          assert Rivals(ids, order, id) == Rivals(ids, rows, id);
          FewRivalsFound(ids, order, id);
        }
      }
    } else {
      var id :| id in Existing(ids, rows) && Rivals(ids, rows, id) >= 4 * |ids|;
      ManyRivalsMissed(ids, rows, id);
      WorstPermutes(rows, id);
    }
  }

  lemma SameExisting(ids: set<string>, order: seq<string>, rows: seq<string>)
    requires multiset(order) == multiset(rows)
    ensures Existing(ids, order) == Existing(ids, rows) && |Stream(ids, order)| == |Stream(ids, rows)|
  {
    forall r ensures r in order <==> r in rows { SameMembers(order, rows, r); }
    FilterPermutes(Among(ids), order, rows);
    PermutedLength(Stream(ids, order), Stream(ids, rows));
  }

  /** Four rows per id are enough: then the budget covers the whole stream. */
  lemma FourEachSuffice(ids: set<string>, rows: seq<string>)
    requires forall id :: id in ids ==> multiset(rows)[id] <= 4
    ensures Found(ids, rows) == Existing(ids, rows)
  {
    StreamLength(ids, rows);
    OnlyWanted(ids, rows);
  }

  lemma {:induction false} StreamLength(ids: set<string>, rows: seq<string>)
    requires forall id :: id in ids ==> multiset(rows)[id] <= 4
    ensures |Stream(ids, rows)| <= 4 * |ids|
    decreases |ids|
  {
    if ids == {} {
      FilterNone(Among(ids), rows);
    } else {
      var id :| id in ids;
      var rest := ids - {id};
      StreamLength(rest, rows);
      CountWithin(rows, id);
      FilterDisjoint(Among(rest), Among({id}), Among(ids), rows);
    }
  }

  /** A single id is always found exactly, however often it occurs. */
  lemma OneIdIsExact(id: string, rows: seq<string>)
    ensures Found({id}, rows) == Existing({id}, rows)
  {
    FoundExists({id}, rows);
    if id in rows {
      CountWithin(rows, id);
      FewRivalsFound({id}, rows, id);
    }
  }

  /** The budget is shared, so copies of one id can hide another that a lookup of its own finds. */
  lemma CopiesHideAnId()
    ensures var rows := ["a", "a", "a", "a", "a", "a", "a", "a", "b"];
      "b" !in Found({"a", "b"}, rows) && Found({"b"}, rows) == {"b"}
  {
    var rows := ["a", "a", "a", "a", "a", "a", "a", "a", "b"];
    FilterAll(Among({"a", "b"}), rows);
    assert |{"a", "b"}| == 2 && "a" != "b";
    assert forall r :: r in rows[..8] ==> r == "a";
    OneIdIsExact("b", rows);
    assert rows[8] == "b";
  }
}
