/**
 * The collection of replays the command-line tool gathers, from
 * src/matched_replay.rs: each replay with the path it was found at, ordered
 * by start time and considered equal by game id. `dedup_and_sort` drops
 * the replays of a game already seen and puts the rest in start-time order.
 *
 * The three library calls it makes are modelled on values: `sort_by` and
 * `sort_unstable` as an insertion sort `SortBy` (stable, so one of the orders
 * `sort_unstable` may produce), and `Vec::dedup` as `Dedup`.
 */
module MatchedReplays {
  import opened Results
  import opened Utils
  import Replays

  /** Rust's `isize`. */
  type isize = x: int | -0x8000_0000_0000_0000 <= x < 0x8000_0000_0000_0000

  datatype MatchedReplay = MatchedReplay(inner: Replays.Replay, path: string)

  function GameId(m: MatchedReplay): nat {
    m.inner.header.game.gameId
  }

  function StartTime(m: MatchedReplay): nat {
    m.inner.header.game.startTime
  }

  datatype Ordering = Less | Equal | Greater

  /** `Ord for MatchedReplay`: the start times compared, and nothing else. */
  function Cmp(a: MatchedReplay, b: MatchedReplay): (o: Ordering)
    ensures o == Less <==> StartTime(a) < StartTime(b)
    ensures o == Equal <==> StartTime(a) == StartTime(b)
  {
    if StartTime(a) < StartTime(b) then Less
    else if StartTime(a) == StartTime(b) then Equal
    else Greater
  }

  /** `PartialEq for MatchedReplay`: the game ids compared, and nothing else. */
  predicate Eq(a: MatchedReplay, b: MatchedReplay) {
    GameId(a) == GameId(b)
  }

  /** `cmp` is a total preorder: reversing the arguments reverses the answer, and `Less or Equal` is transitive. */
  lemma CmpTotalPreorder(a: MatchedReplay, b: MatchedReplay, c: MatchedReplay)
    ensures Cmp(a, b) == Less <==> Cmp(b, a) == Greater
    ensures Cmp(a, b) == Equal <==> Cmp(b, a) == Equal
    ensures Cmp(a, b) != Greater && Cmp(b, c) != Greater ==> Cmp(a, c) != Greater
    ensures Cmp(a, b) == Equal <==> StartTime(a) == StartTime(b)
  {
  }

  // Sequences ordered, and looked into, by a key.

  type Key = MatchedReplay -> nat

  predicate SortedBy(s: seq<MatchedReplay>, key: Key) {
    forall i, j :: 0 <= i < j < |s| ==> key(s[i]) <= key(s[j])
  }

  predicate StrictlySortedBy(s: seq<MatchedReplay>, key: Key) {
    forall i, j :: 0 <= i < j < |s| ==> key(s[i]) < key(s[j])
  }

  /** No two elements share a key. */
  predicate DistinctBy(s: seq<MatchedReplay>, key: Key) {
    forall i, j :: 0 <= i < j < |s| ==> key(s[i]) != key(s[j])
  }

  function Keys(s: seq<MatchedReplay>, key: Key): set<nat> {
    set i | 0 <= i < |s| :: key(s[i])
  }

  /** The first element whose key is `k`, if there is one. */
  function FirstWith(s: seq<MatchedReplay>, k: nat, key: Key): (r: Option<MatchedReplay>)
    ensures r.Some? ==> r.value in s && key(r.value) == k
    ensures r.None? <==> k !in Keys(s, key)
  {
    if s == [] then None
    else if key(s[0]) == k then Some(s[0])
    else
      var r := FirstWith(s[1..], k, key);
      assert Keys(s, key) == {key(s[0])} + Keys(s[1..], key) by {
        KeysSplit(s, key);
      }
      r
  }

  lemma KeysSplit(s: seq<MatchedReplay>, key: Key)
    requires s != []
    ensures Keys(s, key) == {key(s[0])} + Keys(s[1..], key)
  {
    forall k | k in Keys(s, key) ensures k in {key(s[0])} + Keys(s[1..], key) {
      var i :| 0 <= i < |s| && key(s[i]) == k;
      if i > 0 {
        assert s[1..][i - 1] == s[i];
      }
    }
    forall k | k in Keys(s[1..], key) ensures k in Keys(s, key) {
      var i :| 0 <= i < |s[1..]| && key(s[1..][i]) == k;
      assert s[i + 1] == s[1..][i];
    }
  }

  // The sort.

  /** Puts `x` in front of the first element whose key is not below its own. */
  function InsertBefore(x: MatchedReplay, t: seq<MatchedReplay>, key: Key): (r: seq<MatchedReplay>)
    ensures |r| == |t| + 1
    ensures multiset(r) == multiset(t) + multiset{x}
  {
    if t == [] || key(x) <= key(t[0]) then [x] + t
    else
      assert t == [t[0]] + t[1..];
      [t[0]] + InsertBefore(x, t[1..], key)
  }

  /** An element no greater than all of a sorted sequence can go in front of it. */
  lemma SortedCons(y: MatchedReplay, r: seq<MatchedReplay>, key: Key)
    requires SortedBy(r, key) && forall z :: z in r ==> key(y) <= key(z)
    ensures SortedBy([y] + r, key)
  {
    var res := [y] + r;
    forall i, j | 0 <= i < j < |res| ensures key(res[i]) <= key(res[j]) {
      assert res[j] == r[j - 1];
      if i > 0 {
        assert res[i] == r[i - 1];
      }
    }
  }

  /** An element below all of a strictly sorted sequence can go in front of it. */
  lemma StrictCons(y: MatchedReplay, r: seq<MatchedReplay>, key: Key)
    requires StrictlySortedBy(r, key) && forall z :: z in r ==> key(y) < key(z)
    ensures StrictlySortedBy([y] + r, key)
  {
    var res := [y] + r;
    forall i, j | 0 <= i < j < |res| ensures key(res[i]) < key(res[j]) {
      assert res[j] == r[j - 1];
      if i > 0 {
        assert res[i] == r[i - 1];
      }
    }
  }

  /** The rest of a sorted sequence is sorted and lies at or above its first element. */
  lemma SortedTail(s: seq<MatchedReplay>, key: Key)
    requires s != [] && SortedBy(s, key)
    ensures SortedBy(s[1..], key)
    ensures forall z :: z in s[1..] ==> key(s[0]) <= key(z)
  {
    var t := s[1..];
    forall i, j | 0 <= i < j < |t| ensures key(t[i]) <= key(t[j]) {
      assert t[i] == s[i + 1] && t[j] == s[j + 1];
    }
    forall z | z in t ensures key(s[0]) <= key(z) {
      var m :| 0 <= m < |t| && t[m] == z;
      assert s[m + 1] == z;
    }
  }

  /** Dropping the second element of a sorted sequence keeps it sorted. */
  lemma SortedDropSecond(s: seq<MatchedReplay>, key: Key)
    requires |s| > 1 && SortedBy(s, key)
    ensures SortedBy([s[0]] + s[2..], key)
  {
    var u := [s[0]] + s[2..];
    forall i, j | 0 <= i < j < |u| ensures key(u[i]) <= key(u[j]) {
      assert u[j] == s[j + 1];
      if i > 0 {
        assert u[i] == s[i + 1];
      }
    }
  }

  /**
   * A stable sort by `key`: each element goes in front of the later ones
   * whose key is not below its own.
   */
  function SortBy(s: seq<MatchedReplay>, key: Key): (r: seq<MatchedReplay>)
    ensures |r| == |s|
  {
    if s == [] then [] else InsertBefore(s[0], SortBy(s[1..], key), key)
  }

  lemma {:induction false} InsertSorted(x: MatchedReplay, t: seq<MatchedReplay>, key: Key)
    requires SortedBy(t, key)
    ensures SortedBy(InsertBefore(x, t, key), key)
  {
    if !(t == [] || key(x) <= key(t[0])) {
      var r := InsertBefore(x, t[1..], key);
      InsertSorted(x, t[1..], key);
      SortedTail(t, key);
      forall y | y in r ensures key(t[0]) <= key(y) {
        assert y in multiset(r);
        if y != x {
          assert y in multiset(t[1..]);
        }
      }
      SortedCons(t[0], r, key);
    }
  }

  /** The sort orders by its key. */
  lemma {:induction false} SortSorted(s: seq<MatchedReplay>, key: Key)
    ensures SortedBy(SortBy(s, key), key)
  {
    if s != [] {
      SortSorted(s[1..], key);
      InsertSorted(s[0], SortBy(s[1..], key), key);
    }
  }

  /** The sort only reorders. */
  lemma {:induction false} SortPermutes(s: seq<MatchedReplay>, key: Key)
    ensures multiset(SortBy(s, key)) == multiset(s)
  {
    if s != [] {
      SortPermutes(s[1..], key);
      assert s == [s[0]] + s[1..];
    }
  }

  /** Inserting `x` makes it the first element with its key and moves no other first element. */
  lemma {:induction false} InsertFirstWith(x: MatchedReplay, t: seq<MatchedReplay>, k: nat, key: Key)
    ensures FirstWith(InsertBefore(x, t, key), k, key) == if key(x) == k then Some(x) else FirstWith(t, k, key)
  {
    if t == [] || key(x) <= key(t[0]) {
      assert ([x] + t)[1..] == t;
    } else {
      var r := InsertBefore(x, t[1..], key);
      assert ([t[0]] + r)[1..] == r;
      InsertFirstWith(x, t[1..], k, key);
    }
  }

  /** Stability, as far as it matters here: the first element with each key is the same before and after. */
  lemma {:induction false} SortFirstWith(s: seq<MatchedReplay>, k: nat, key: Key)
    ensures FirstWith(SortBy(s, key), k, key) == FirstWith(s, k, key)
  {
    if s != [] {
      SortFirstWith(s[1..], k, key);
      InsertFirstWith(s[0], SortBy(s[1..], key), k, key);
    }
  }

  /** Putting an element with a new key in front keeps keys distinct. */
  lemma DistinctCons(y: MatchedReplay, r: seq<MatchedReplay>, id: Key)
    requires DistinctBy(r, id) && id(y) !in Keys(r, id)
    ensures DistinctBy([y] + r, id)
  {
    var res := [y] + r;
    forall i, j | 0 <= i < j < |res| ensures id(res[i]) != id(res[j]) {
      assert res[j] == r[j - 1];
      if i > 0 {
        assert res[i] == r[i - 1];
      } else {
        assert id(r[j - 1]) in Keys(r, id);
      }
    }
  }

  /** The rest of a sequence with distinct keys has distinct keys, none of them the first one's. */
  lemma DistinctTail(t: seq<MatchedReplay>, id: Key)
    requires t != [] && DistinctBy(t, id)
    ensures DistinctBy(t[1..], id) && id(t[0]) !in Keys(t[1..], id)
  {
    forall i, j | 0 <= i < j < |t[1..]| ensures id(t[1..][i]) != id(t[1..][j]) {
      assert t[1..][i] == t[i + 1] && t[1..][j] == t[j + 1];
    }
    forall j | 0 <= j < |t[1..]| ensures id(t[1..][j]) != id(t[0]) {
      assert t[1..][j] == t[j + 1];
    }
  }

  /** Inserting adds the element's key and keeps the rest; an element with a new key keeps keys distinct. */
  lemma {:induction false} InsertKeys(x: MatchedReplay, t: seq<MatchedReplay>, key: Key, id: Key)
    ensures Keys(InsertBefore(x, t, key), id) == Keys(t, id) + {id(x)}
    ensures DistinctBy(t, id) && id(x) !in Keys(t, id) ==> DistinctBy(InsertBefore(x, t, key), id)
  {
    var res := InsertBefore(x, t, key);
    KeysSplit(res, id);
    if t == [] || key(x) <= key(t[0]) {
      assert res == [x] + t && res[1..] == t;
      if DistinctBy(t, id) && id(x) !in Keys(t, id) {
        DistinctCons(x, t, id);
      }
    } else {
      var r := InsertBefore(x, t[1..], key);
      assert res == [t[0]] + r && res[1..] == r;
      InsertKeys(x, t[1..], key, id);
      KeysSplit(t, id);
      if DistinctBy(t, id) && id(x) !in Keys(t, id) {
        DistinctTail(t, id);
        DistinctCons(t[0], r, id);
      }
    }
  }

  /** The sort keeps the keys, and keeps them distinct if they were. */
  lemma {:induction false} SortKeys(s: seq<MatchedReplay>, key: Key, id: Key)
    ensures Keys(SortBy(s, key), id) == Keys(s, id)
    ensures DistinctBy(s, id) ==> DistinctBy(SortBy(s, key), id)
  {
    if s != [] {
      SortKeys(s[1..], key, id);
      InsertKeys(s[0], SortBy(s[1..], key), key, id);
      KeysSplit(s, id);
      if DistinctBy(s, id) {
        DistinctTail(s, id);
      }
    }
  }

  // The dedup.

  /** `Vec::dedup`: of each run of consecutive equal replays, only the first is kept. */
  function Dedup(s: seq<MatchedReplay>): (r: seq<MatchedReplay>)
    ensures |r| <= |s|
    ensures s != [] ==> r != [] && r[0] == s[0]
    ensures forall y :: y in r ==> y in s
    ensures forall i :: 0 <= i < |r| - 1 ==> !Eq(r[i], r[i + 1])
    decreases |s|
  {
    if |s| <= 1 then s
    else if Eq(s[0], s[1]) then
      var r := Dedup([s[0]] + s[2..]);
      assert forall y :: y in [s[0]] + s[2..] ==> y in s;
      r
    else
      var r := Dedup(s[1..]);
      [s[0]] + r
  }

  /** The replays of `t` that differ from the one just before them, `prev` coming first. */
  function Changes(prev: MatchedReplay, t: seq<MatchedReplay>): seq<MatchedReplay>
    decreases |t|
  {
    if t == [] then []
    else (if Eq(prev, t[0]) then [] else [t[0]]) + Changes(t[0], t[1..])
  }

  /**
   * `Vec::dedup` described element by element: the first replay, then each
   * one whose game differs from its predecessor in the input.
   */
  function KeepChanges(s: seq<MatchedReplay>): seq<MatchedReplay> {
    if s == [] then [] else [s[0]] + Changes(s[0], s[1..])
  }

  /** Dedup keeps exactly the replays whose game differs from the game just before them. */
  lemma DedupKeepsChanges(s: seq<MatchedReplay>)
    ensures Dedup(s) == KeepChanges(s)
  {
    if s != [] {
      DedupCons(s[0], s[1..]);
      assert [s[0]] + s[1..] == s;
    }
  }

  lemma {:induction false} DedupCons(x: MatchedReplay, t: seq<MatchedReplay>)
    ensures Dedup([x] + t) == [x] + Changes(x, t)
    decreases |t|
  {
    var s := [x] + t;
    if t != [] {
      assert s[0] == x && s[1] == t[0];
      if Eq(x, t[0]) {
        assert [s[0]] + s[2..] == [x] + t[1..];
        DedupCons(x, t[1..]);
        ChangesAfterEq(x, t[0], t[1..]);
      } else {
        assert s[1..] == [t[0]] + t[1..];
        DedupCons(t[0], t[1..]);
      }
    }
  }

  /** Only the game of the predecessor matters. */
  lemma ChangesAfterEq(x: MatchedReplay, y: MatchedReplay, t: seq<MatchedReplay>)
    requires Eq(x, y)
    ensures Changes(x, t) == Changes(y, t)
  {
  }

  /** Dropping a replay of a game already seen keeps every game and the first replay of each. */
  lemma {:induction false} DedupFirstWith(s: seq<MatchedReplay>, k: nat)
    ensures FirstWith(Dedup(s), k, GameId) == FirstWith(s, k, GameId)
    ensures Keys(Dedup(s), GameId) == Keys(s, GameId)
    decreases |s|
  {
    if |s| > 1 {
      var r := Dedup(s);
      if Eq(s[0], s[1]) {
        var u := [s[0]] + s[2..];
        DedupFirstWith(u, k);
        assert u[1..] == s[2..] && s[1..][1..] == s[2..];
        KeysSplit(s, GameId);
        KeysSplit(s[1..], GameId);
        KeysSplit(u, GameId);
      } else {
        DedupFirstWith(s[1..], k);
        assert r[1..] == Dedup(s[1..]);
        KeysSplit(s, GameId);
        KeysSplit(r, GameId);
      }
    }
  }

  /** On input sorted by game id, equal ids are adjacent, so after the dedup the ids strictly increase. */
  lemma {:induction false} DedupStrict(s: seq<MatchedReplay>)
    requires SortedBy(s, GameId)
    ensures StrictlySortedBy(Dedup(s), GameId)
    decreases |s|
  {
    if |s| > 1 {
      if Eq(s[0], s[1]) {
        SortedDropSecond(s, GameId);
        DedupStrict([s[0]] + s[2..]);
      } else {
        var t := s[1..];
        SortedTail(s, GameId);
        DedupStrict(t);
        var r := Dedup(t);
        forall z | z in r ensures GameId(s[0]) < GameId(z) {
          SortedTail(t, GameId);
          assert z in t;
          assert t[0] == s[1];
          if z != t[0] {
            assert z in t[1..] by {
              var m :| 0 <= m < |t| && t[m] == z;
              assert t[1..][m - 1] == z;
            }
          }
        }
        StrictCons(s[0], r, GameId);
      }
    }
  }

  /** In a sequence with distinct keys, every element is the first with its key. */
  lemma {:induction false} DistinctFirstWith(s: seq<MatchedReplay>, i: nat, key: Key)
    requires DistinctBy(s, key) && i < |s|
    ensures FirstWith(s, key(s[i]), key) == Some(s[i])
  {
    if i > 0 {
      DistinctTail(s, key);
      assert s[1..][i - 1] == s[i];
      DistinctFirstWith(s[1..], i - 1, key);
    }
  }

  /** `dedup_and_sort` on the replays `s`. */
  function DedupAndSorted(s: seq<MatchedReplay>): seq<MatchedReplay> {
    SortBy(Dedup(SortBy(s, GameId)), StartTime)
  }

  /**
   * What `dedup_and_sort` promises: no game appears twice, the replays are
   * in start-time order, every game is still there, nothing is added, and
   * the replay kept for each game is the first one of that game in the
   * original order.
   */
  lemma DedupAndSortedSpec(s: seq<MatchedReplay>)
    ensures var r := DedupAndSorted(s);
      && DistinctBy(r, GameId)
      && SortedBy(r, StartTime)
      && Keys(r, GameId) == Keys(s, GameId)
      && |r| <= |s|
      && (forall i :: 0 <= i < |r| ==> FirstWith(s, GameId(r[i]), GameId) == Some(r[i]))
  {
    var byId := SortBy(s, GameId);
    var d := Dedup(byId);
    DedupedDistinct(s);
    DedupFirstWith(byId, 0);
    SortKeys(s, GameId, GameId);
    SortKeys(d, StartTime, GameId);
    SortSorted(d, StartTime);
    KeptAreFirst(s);
  }

  /** After the first sort and the dedup, the game ids are distinct. */
  lemma DedupedDistinct(s: seq<MatchedReplay>)
    ensures DistinctBy(Dedup(SortBy(s, GameId)), GameId)
  {
    SortSorted(s, GameId);
    DedupStrict(SortBy(s, GameId));
  }

  /** Every replay kept is the first of its game in the original order. */
  lemma KeptAreFirst(s: seq<MatchedReplay>)
    ensures var r := DedupAndSorted(s);
      forall i :: 0 <= i < |r| ==> FirstWith(s, GameId(r[i]), GameId) == Some(r[i])
  {
    var byId := SortBy(s, GameId);
    var d := Dedup(byId);
    var r := SortBy(d, StartTime);
    DedupedDistinct(s);
    SortPermutes(d, StartTime);
    forall i | 0 <= i < |r| ensures FirstWith(s, GameId(r[i]), GameId) == Some(r[i]) {
      assert r[i] in multiset(d);
      var j :| 0 <= j < |d| && d[j] == r[i];
      DistinctFirstWith(d, j, GameId);
      DedupFirstWith(byId, GameId(r[i]));
      SortFirstWith(s, GameId(r[i]), GameId);
    }
  }

  /** Two replays of the same start time but different games: `cmp` calls them equal and `==` does not. */
  lemma OrderAndEqualityDisagree()
    ensures var g := Replays.DefaultReplay.header.game;
      var a := MatchedReplay(Replays.Replay(Replays.DefaultReplay.header.(game := g.(gameId := 1))), "a");
      var b := MatchedReplay(Replays.Replay(Replays.DefaultReplay.header.(game := g.(gameId := 2))), "b");
      Cmp(a, b) == Equal && !Eq(a, b)
  {
  }

  class MatchedReplayCollection {
    /** The replays left after filtering. */
    var replays: seq<MatchedReplay>
    /** The number of replays found. */
    var total: isize
    /** The number of replays parsed. */
    var parsed: isize

    constructor (replays: seq<MatchedReplay>, total: isize, parsed: isize)
      ensures this.replays == replays && this.total == total && this.parsed == parsed
    {
      this.replays := replays;
      this.total := total;
      this.parsed := parsed;
    }

    /** `dedup_and_sort`: sort by game id, drop adjacent duplicates, sort by start time. */
    method DedupAndSort()
      modifies this
      ensures replays == DedupAndSorted(old(replays))
      ensures total == old(total) && parsed == old(parsed)
      ensures DistinctBy(replays, GameId) && SortedBy(replays, StartTime)
      ensures Keys(replays, GameId) == Keys(old(replays), GameId) && |replays| <= |old(replays)|
      ensures forall i :: 0 <= i < |replays| ==> FirstWith(old(replays), GameId(replays[i]), GameId) == Some(replays[i])
    {
      DedupAndSortedSpec(replays);
      var byId := SortBy(replays, GameId);
      replays := byId;
      replays := Dedup(replays);
      replays := SortBy(replays, StartTime);
    }
  }
}
