/**
 The public leaderboard's group standings: for each of four fixed group ids,
 the sum of the scores of the records tagged with that id, listed from the
 highest total down. The sort is JavaScript's `Array.prototype.sort`, which
 is stable, so groups with equal totals keep the fixed id order.
 */
module Standings {
  import opened Values

  /** The ids the leaderboard ranks, in their fixed order. The list does not
      follow the groups collection: a group an administrator adds is never
      ranked, and a ranked id with no group document still is. */
  const GroupIds: seq<string> := ["Nishan", "Nagara", "Dhankul", "Bansuri"]

  /** `{ id, name, score: total, color }`. */
  datatype Standing = Standing(id: string, name: Value, score: int, color: Value)

  // ---------------------------------------------------------------------------
  // Totals

  /** `e.group === id`. */
  predicate InGroup(e: Doc, id: string)
  {
    Get(e, "group") == Str(id)
  }

  /** `e.score` as an integer; a record without a numeric score adds nothing. */
  function ScoreOf(e: Doc): int
  {
    match Get(e, "score")
    case Num(n) => n
    case _ => 0
  }

  /** `data.filter(e => e.group === id)`: every record of the group, as
      often as it occurs, and no other. */
  function Members(data: seq<Doc>, id: string): (r: seq<Doc>)
    ensures forall e :: e in r <==> e in data && InGroup(e, id)
    ensures forall e :: multiset(r)[e] == if InGroup(e, id) then multiset(data)[e] else 0
    decreases |data|
  {
    if data == [] then []
    else
      assert multiset(data) == multiset([data[0]]) + multiset(data[1..]) by {
        assert data == [data[0]] + data[1..];
      }
      (if InGroup(data[0], id) then [data[0]] else []) + Members(data[1..], id)
  }

  /** `.reduce((sum, e) => sum + e.score, 0)`. */
  function SumOfScores(records: seq<Doc>): int
    decreases |records|
  {
    if records == [] then 0 else ScoreOf(records[0]) + SumOfScores(records[1..])
  }

  /** The total shown for group `id`. */
  function Total(data: seq<Doc>, id: string): int
  {
    SumOfScores(Members(data, id))
  }

  /** `groupsConfig[id]?.name || id`. */
  function NameOf(config: map<string, Doc>, id: string): (r: Value)
    ensures id !in config ==> r == Str(id)
    ensures id in config && Truthy(Get(config[id], "name")) ==> r == config[id]["name"]
    ensures id in config && !Truthy(Get(config[id], "name")) ==> r == Str(id)
  {
    if id in config then Or(Get(config[id], "name"), Str(id)) else Str(id)
  }

  /** `groupsConfig[id]?.color || '#ffffff'`. */
  function ColorOf(config: map<string, Doc>, id: string): (r: Value)
    ensures id !in config ==> r == Str("#ffffff")
    ensures id in config && Truthy(Get(config[id], "color")) ==> r == config[id]["color"]
    ensures id in config && !Truthy(Get(config[id], "color")) ==> r == Str("#ffffff")
  {
    if id in config then Or(Get(config[id], "color"), Str("#ffffff")) else Str("#ffffff")
  }

  function StandingFor(config: map<string, Doc>, data: seq<Doc>, id: string): Standing
  {
    Standing(id, NameOf(config, id), Total(data, id), ColorOf(config, id))
  }

  /** `groupIds.map(...)`: one standing per fixed id, before sorting. */
  function Unranked(config: map<string, Doc>, data: seq<Doc>): (r: seq<Standing>)
    ensures |r| == |GroupIds|
    ensures forall i :: 0 <= i < |r| ==> r[i] == StandingFor(config, data, GroupIds[i])
  {
    seq(|GroupIds|, i requires 0 <= i < |GroupIds| => StandingFor(config, data, GroupIds[i]))
  }

  // ---------------------------------------------------------------------------
  // The stable descending sort

  function Ids(s: seq<Standing>): (r: seq<string>)
    ensures |r| == |s| && forall i :: 0 <= i < |s| ==> r[i] == s[i].id
  {
    seq(|s|, i requires 0 <= i < |s| => s[i].id)
  }

  predicate NonIncreasing(s: seq<Standing>)
  {
    forall i, j :: 0 <= i < j < |s| ==> s[i].score >= s[j].score
  }

  /** The standings with total `k`, in their order in `s`. A sort is stable
      when this is the same before and after it, for every `k`. */
  function WithScore(s: seq<Standing>, k: int): seq<Standing>
    decreases |s|
  {
    if s == [] then []
    else (if s[0].score == k then [s[0]] else []) + WithScore(s[1..], k)
  }

  function SumScores(s: seq<Standing>): int
    decreases |s|
  {
    if s == [] then 0 else s[0].score + SumScores(s[1..])
  }

  lemma WithScoreCons(x: Standing, t: seq<Standing>, k: int)
    ensures WithScore([x] + t, k) == (if x.score == k then [x] else []) + WithScore(t, k)
  {
    assert ([x] + t)[1..] == t;
  }

  lemma IdsCons(x: Standing, t: seq<Standing>)
    ensures Ids([x] + t) == [x.id] + Ids(t)
  {
  }

  lemma TailNonIncreasing(t: seq<Standing>)
    requires t != [] && NonIncreasing(t)
    ensures NonIncreasing(t[1..])
  {
    forall i, j | 0 <= i < j < |t[1..]| ensures t[1..][i].score >= t[1..][j].score {
      assert t[1..][i] == t[i + 1] && t[1..][j] == t[j + 1];
    }
  }

  /** Putting `h` in front of a non-increasing list whose head is not
      greater than `h` keeps it non-increasing. */
  lemma ConsNonIncreasing(h: Standing, t: seq<Standing>)
    requires NonIncreasing(t) && (t == [] || h.score >= t[0].score)
    ensures NonIncreasing([h] + t)
  {
    var r := [h] + t;
    forall i, j | 0 <= i < j < |r| ensures r[i].score >= r[j].score {
      if i == 0 && j > 1 {
        assert r[1] == t[0] && r[j] == t[j - 1];
      }
    }
  }

  /** Places `x`, which came before every element of `t` in the input, in front
      of the first element whose total is not greater than its own
      (the comparator `b.score - a.score` of a stable sort). */
  function Insert(x: Standing, t: seq<Standing>): (r: seq<Standing>)
    requires NonIncreasing(t)
    ensures NonIncreasing(r)
    ensures |r| == |t| + 1
    ensures r[0] == x || (t != [] && r[0] == t[0])
    decreases |t|
  {
    if t == [] || x.score >= t[0].score then
      ConsNonIncreasing(x, t);
      [x] + t
    else
      TailNonIncreasing(t);
      var rest := Insert(x, t[1..]);
      assert rest[0].score <= t[0].score by {
        if rest[0] != x { assert rest[0] == t[1]; }
      }
      ConsNonIncreasing(t[0], rest);
      [t[0]] + rest
  }

  /** Inserting adds exactly `x`. */
  lemma {:induction false} InsertPerm(x: Standing, t: seq<Standing>)
    requires NonIncreasing(t)
    ensures multiset(Insert(x, t)) == multiset{x} + multiset(t)
    decreases |t|
  {
    if !(t == [] || x.score >= t[0].score) {
      TailNonIncreasing(t);
      assert t == [t[0]] + t[1..];
      InsertPerm(x, t[1..]);
    }
  }

  /** Inserting `x` adds it to its total's run in front of the equal totals
      already there, and leaves every other total's run alone. */
  lemma {:induction false} InsertStable(x: Standing, t: seq<Standing>, k: int)
    requires NonIncreasing(t)
    ensures WithScore(Insert(x, t), k) == (if x.score == k then [x] else []) + WithScore(t, k)
    decreases |t|
  {
    if t == [] || x.score >= t[0].score {
      WithScoreCons(x, t, k);
    } else {
      TailNonIncreasing(t);
      var t1 := t[1..];
      var rest := Insert(x, t1);
      assert Insert(x, t) == [t[0]] + rest;
      assert t == [t[0]] + t1;
      InsertStable(x, t1, k);
      WithScoreCons(t[0], rest, k);
      WithScoreCons(t[0], t1, k);
      if x.score == k {
        assert t[0].score != k;
        assert WithScore(Insert(x, t), k) == WithScore(rest, k) == [x] + WithScore(t1, k);
        assert WithScore(t, k) == WithScore(t1, k);
      } else if t[0].score == k {
        assert WithScore(rest, k) == WithScore(t1, k);
        assert WithScore(Insert(x, t), k) == [t[0]] + WithScore(t1, k) == WithScore(t, k);
      } else {
        assert WithScore(rest, k) == WithScore(t1, k);
        assert WithScore(Insert(x, t), k) == WithScore(t1, k) == WithScore(t, k);
      }
    }
  }

  lemma {:induction false} InsertIds(x: Standing, t: seq<Standing>)
    requires NonIncreasing(t)
    ensures multiset(Ids(Insert(x, t))) == multiset{x.id} + multiset(Ids(t))
    decreases |t|
  {
    if t == [] || x.score >= t[0].score {
      IdsCons(x, t);
    } else {
      TailNonIncreasing(t);
      assert t == [t[0]] + t[1..];
      InsertIds(x, t[1..]);
      IdsCons(t[0], Insert(x, t[1..]));
      IdsCons(t[0], t[1..]);
    }
  }

  lemma {:induction false} InsertSum(x: Standing, t: seq<Standing>)
    requires NonIncreasing(t)
    ensures SumScores(Insert(x, t)) == x.score + SumScores(t)
    decreases |t|
  {
    if t == [] || x.score >= t[0].score {
      assert ([x] + t)[1..] == t;
    } else {
      TailNonIncreasing(t);
      assert t == [t[0]] + t[1..];
      InsertSum(x, t[1..]);
      assert ([t[0]] + Insert(x, t[1..]))[1..] == Insert(x, t[1..]);
    }
  }

  /** The insertion sort the model uses for `.sort((a, b) => b.score - a.score)`:
      a permutation in non-increasing order of total. */
  function SortDescending(s: seq<Standing>): (r: seq<Standing>)
    ensures NonIncreasing(r)
    ensures multiset(r) == multiset(s)
    decreases |s|
  {
    if s == [] then []
    else
      var t := SortDescending(s[1..]);
      InsertPerm(s[0], t);
      assert s == [s[0]] + s[1..];
      Insert(s[0], t)
  }

  /** The sort is stable: for every total, the standings with that total
      come out in the order they went in. */
  lemma {:induction false} SortStable(s: seq<Standing>, k: int)
    ensures WithScore(SortDescending(s), k) == WithScore(s, k)
    decreases |s|
  {
    if s != [] {
      SortStable(s[1..], k);
      InsertStable(s[0], SortDescending(s[1..]), k);
      WithScoreCons(s[0], s[1..], k);
      assert s == [s[0]] + s[1..];
    }
  }

  /** The sort neither adds, drops nor repeats an id. */
  lemma {:induction false} SortKeepsIds(s: seq<Standing>)
    ensures multiset(Ids(SortDescending(s))) == multiset(Ids(s))
    decreases |s|
  {
    if s != [] {
      SortKeepsIds(s[1..]);
      InsertIds(s[0], SortDescending(s[1..]));
      IdsCons(s[0], s[1..]);
      assert s == [s[0]] + s[1..];
    }
  }

  /** The sort keeps the sum of totals. */
  lemma {:induction false} SortKeepsSum(s: seq<Standing>)
    ensures SumScores(SortDescending(s)) == SumScores(s)
    decreases |s|
  {
    if s != [] {
      SortKeepsSum(s[1..]);
      InsertSum(s[0], SortDescending(s[1..]));
    }
  }

  lemma WithScoreMembers(s: seq<Standing>, k: int)
    ensures forall e :: e in WithScore(s, k) <==> e in s && e.score == k
    decreases |s|
  {
    if s != [] {
      WithScoreMembers(s[1..], k);
      assert s == [s[0]] + s[1..];
    }
  }

  lemma EmptyRuns(b: seq<Standing>)
    requires forall k :: WithScore(b, k) == []
    ensures b == []
  {
    if b != [] {
      WithScoreCons(b[0], b[1..], b[0].score);
      assert b == [b[0]] + b[1..];
      assert WithScore(b, b[0].score) != [];
    }
  }

  /** A list's first standing heads the run of its own total. */
  lemma RunHead(s: seq<Standing>)
    requires s != []
    ensures WithScore(s, s[0].score) != [] && WithScore(s, s[0].score)[0] == s[0]
  {
    WithScoreCons(s[0], s[1..], s[0].score);
    assert s == [s[0]] + s[1..];
  }

  /** In a non-increasing list, no total exceeds the first one. */
  lemma RunBounded(s: seq<Standing>, k: int)
    requires s != [] && NonIncreasing(s) && WithScore(s, k) != []
    ensures k <= s[0].score
  {
    WithScoreMembers(s, k);
    var e := WithScore(s, k)[0];
    assert e in WithScore(s, k);
    var i :| 0 <= i < |s| && s[i] == e;
  }

  lemma HeadsAgree(a: seq<Standing>, b: seq<Standing>)
    requires a != [] && b != []
    requires NonIncreasing(a) && NonIncreasing(b)
    requires forall k :: WithScore(a, k) == WithScore(b, k)
    ensures a[0] == b[0]
  {
    var m, n := a[0].score, b[0].score;
    RunHead(a);
    RunHead(b);
    assert WithScore(b, m) == WithScore(a, m);
    RunBounded(b, m);
    assert WithScore(a, n) == WithScore(b, n);
    RunBounded(a, n);
    assert WithScore(a, m) == WithScore(b, n);
  }

  lemma TailsAgree(a: seq<Standing>, b: seq<Standing>, k: int)
    requires a != [] && b != [] && a[0] == b[0]
    requires WithScore(a, k) == WithScore(b, k)
    ensures WithScore(a[1..], k) == WithScore(b[1..], k)
  {
    WithScoreCons(a[0], a[1..], k);
    WithScoreCons(b[0], b[1..], k);
    assert a == [a[0]] + a[1..];
    assert b == [b[0]] + b[1..];
    var pre := if a[0].score == k then [a[0]] else [];
    assert WithScore(a[1..], k) == WithScore(a, k)[|pre|..];
    assert WithScore(b[1..], k) == WithScore(b, k)[|pre|..];
  }

  /** There is only one stable descending order: any two orderings that are
      non-increasing and agree on the order of each total's standings are
      equal. So the insertion sort gives the same list as any other stable
      sort with the same comparator, `Array.prototype.sort` included. */
  lemma {:induction false} StableSortUnique(a: seq<Standing>, b: seq<Standing>)
    requires NonIncreasing(a) && NonIncreasing(b)
    requires forall k :: WithScore(a, k) == WithScore(b, k)
    ensures a == b
    decreases |a|
  {
    if a == [] {
      EmptyRuns(b);
    } else if b == [] {
      EmptyRuns(a);
    } else {
      HeadsAgree(a, b);
      forall k ensures WithScore(a[1..], k) == WithScore(b[1..], k) {
        TailsAgree(a, b, k);
      }
      StableSortUnique(a[1..], b[1..]);
      assert a == [a[0]] + a[1..];
      assert b == [b[0]] + b[1..];
    }
  }

  // ---------------------------------------------------------------------------
  // The standings

  /** `groupScores`. */
  function GroupStandings(config: map<string, Doc>, data: seq<Doc>): seq<Standing>
  {
    SortDescending(Unranked(config, data))
  }

  /** Position of `id` among the fixed ids (4 when it is not one of them). */
  function Rank(id: string): (r: nat)
    ensures r <= |GroupIds|
    ensures r < |GroupIds| ==> GroupIds[r] == id
    ensures r == |GroupIds| <==> id !in GroupIds
  {
    if id == GroupIds[0] then 0
    else if id == GroupIds[1] then 1
    else if id == GroupIds[2] then 2
    else if id == GroupIds[3] then 3
    else 4
  }

  lemma FixedIdsOnce()
    ensures forall id :: id in GroupIds ==> multiset(GroupIds)[id] == 1
  {
    var m := multiset(GroupIds);
    assert m == multiset{GroupIds[0]} + multiset{GroupIds[1]} + multiset{GroupIds[2]} + multiset{GroupIds[3]} by {
      assert GroupIds == [GroupIds[0]] + [GroupIds[1]] + [GroupIds[2]] + [GroupIds[3]];
    }
  }

  /** The standings hold each of the four fixed ids exactly once and no
      other id, whatever the groups collection holds. */
  lemma StandingsListFixedIds(config: map<string, Doc>, data: seq<Doc>)
    ensures var r := GroupStandings(config, data);
      && |r| == 4
      && multiset(Ids(r)) == multiset(GroupIds)
      && (forall id :: id in GroupIds ==> multiset(Ids(r))[id] == 1)
      && (forall id :: id !in GroupIds ==> id !in Ids(r))
  {
    var u := Unranked(config, data);
    var r := GroupStandings(config, data);
    assert Ids(u) == GroupIds;
    SortKeepsIds(u);
    FixedIdsOnce();
    forall id | id !in GroupIds ensures id !in Ids(r) {
      assert id !in multiset(GroupIds);
    }
  }

  /** Every standing shows the total, name and colour of its own id, and the
      list runs from the highest total down. */
  lemma StandingsShowTotals(config: map<string, Doc>, data: seq<Doc>)
    ensures var r := GroupStandings(config, data);
      && (forall i :: 0 <= i < |r| ==> r[i].id in GroupIds && r[i] == StandingFor(config, data, r[i].id))
      && NonIncreasing(r)
  {
    var u := Unranked(config, data);
    var r := GroupStandings(config, data);
    forall i | 0 <= i < |r|
      ensures r[i].id in GroupIds && r[i] == StandingFor(config, data, r[i].id)
    {
      assert r[i] in multiset(r);
      assert r[i] in u;
    }
  }

  /** How the run of total `k` of a non-empty list relates to that of its tail. */
  lemma RunShift(r: seq<Standing>, k: int)
    requires r != []
    ensures r[0].score == k ==> |WithScore(r, k)| == |WithScore(r[1..], k)| + 1 && WithScore(r, k)[0] == r[0]
    ensures r[0].score == k ==>
      forall x :: 0 <= x < |WithScore(r[1..], k)| ==> WithScore(r, k)[x + 1] == WithScore(r[1..], k)[x]
    ensures r[0].score != k ==> WithScore(r, k) == WithScore(r[1..], k)
  {
    var w, w1 := WithScore(r, k), WithScore(r[1..], k);
    if r[0].score == k {
      assert w == [r[0]] + w1;
      forall x | 0 <= x < |w1| ensures w[x + 1] == w1[x] {
      }
    } else {
      assert w == [] + w1;
    }
  }

  /** Where a standing with total `k` sits in the run of total `k`. */
  lemma {:induction false} RunPosition(s: seq<Standing>, k: int, j: int) returns (q: int)
    requires 0 <= j < |s| && s[j].score == k
    ensures 0 <= q < |WithScore(s, k)| && WithScore(s, k)[q] == s[j]
    decreases |s|
  {
    RunShift(s, k);
    if j == 0 {
      q := 0;
    } else {
      assert s[1..][j - 1] == s[j];
      var q' := RunPosition(s[1..], k, j - 1);
      q := if s[0].score == k then q' + 1 else q';
    }
  }

  /** Two standings with the same total keep their relative order in that
      total's run. */
  lemma {:induction false} OrderedPair(r: seq<Standing>, i: int, j: int) returns (p: int, q: int)
    requires 0 <= i < j < |r| && r[i].score == r[j].score
    ensures 0 <= p < q < |WithScore(r, r[i].score)|
    ensures WithScore(r, r[i].score)[p] == r[i] && WithScore(r, r[i].score)[q] == r[j]
    decreases |r|
  {
    var k := r[i].score;
    var t := r[1..];
    var w, w1 := WithScore(r, k), WithScore(t, k);
    RunShift(r, k);
    assert t[j - 1] == r[j];
    if i == 0 {
      var q' := RunPosition(t, k, j - 1);
      assert w1[q'] == r[j];
      p, q := 0, q' + 1;
      assert w[q] == r[j];
    } else {
      assert t[i - 1] == r[i];
      var p', q' := OrderedPair(t, i - 1, j - 1);
      assert w1[p'] == r[i] && w1[q'] == r[j];
      if r[0].score == k {
        p, q := p' + 1, q' + 1;
        assert w[p] == r[i] && w[q] == r[j];
      } else {
        p, q := p', q';
      }
    }
  }

  predicate RankIncreasing(s: seq<Standing>)
  {
    forall i, j :: 0 <= i < j < |s| ==> Rank(s[i].id) < Rank(s[j].id)
  }

  /** Putting `h` in front of a list in fixed id order whose every id comes
      after `h`'s keeps it in fixed id order. */
  lemma ConsRankIncreasing(h: Standing, t: seq<Standing>)
    requires RankIncreasing(t) && forall e :: e in t ==> Rank(h.id) < Rank(e.id)
    ensures RankIncreasing([h] + t)
  {
    var r := [h] + t;
    forall i, j | 0 <= i < j < |r| ensures Rank(r[i].id) < Rank(r[j].id) {
      assert r[j] == t[j - 1];
      if i > 0 { assert r[i] == t[i - 1]; }
    }
  }

  lemma TailRankIncreasing(s: seq<Standing>)
    requires s != [] && RankIncreasing(s)
    ensures RankIncreasing(s[1..])
    ensures forall e :: e in s[1..] ==> Rank(s[0].id) < Rank(e.id)
  {
    forall i, j | 0 <= i < j < |s[1..]| ensures Rank(s[1..][i].id) < Rank(s[1..][j].id) {
      assert s[1..][i] == s[i + 1] && s[1..][j] == s[j + 1];
    }
    forall e | e in s[1..] ensures Rank(s[0].id) < Rank(e.id) {
      var t :| 0 <= t < |s[1..]| && s[1..][t] == e;
      assert s[t + 1] == e;
    }
  }

  lemma {:induction false} WithScoreKeepsRank(s: seq<Standing>, k: int)
    requires RankIncreasing(s)
    ensures RankIncreasing(WithScore(s, k))
    decreases |s|
  {
    if s != [] {
      TailRankIncreasing(s);
      WithScoreKeepsRank(s[1..], k);
      WithScoreMembers(s[1..], k);
      WithScoreCons(s[0], s[1..], k);
      assert s == [s[0]] + s[1..];
      if s[0].score == k {
        ConsRankIncreasing(s[0], WithScore(s[1..], k));
      }
    }
  }

  /** Sorting a list in fixed id order keeps equal totals in that order. */
  lemma SortKeepsTieOrder(u: seq<Standing>, i: int, j: int)
    requires RankIncreasing(u)
    requires 0 <= i < j < |SortDescending(u)|
    requires SortDescending(u)[i].score == SortDescending(u)[j].score
    ensures Rank(SortDescending(u)[i].id) < Rank(SortDescending(u)[j].id)
  {
    var r := SortDescending(u);
    var k := r[i].score;
    var p, q := OrderedPair(r, i, j);
    SortStable(u, k);
    WithScoreKeepsRank(u, k);
  }

  lemma RankOfFixed(i: int)
    requires 0 <= i < |GroupIds|
    ensures Rank(GroupIds[i]) == i
  {
  }

  lemma UnrankedInFixedOrder(config: map<string, Doc>, data: seq<Doc>)
    ensures RankIncreasing(Unranked(config, data))
  {
    var u := Unranked(config, data);
    forall i, j | 0 <= i < j < |u| ensures Rank(u[i].id) < Rank(u[j].id) {
      RankOfFixed(i);
      RankOfFixed(j);
    }
  }

  /** Groups with equal totals appear in the fixed id order
      (Nishan, Nagara, Dhankul, Bansuri). */
  lemma TiesKeepFixedOrder(config: map<string, Doc>, data: seq<Doc>)
    ensures var r := GroupStandings(config, data);
      forall i, j :: 0 <= i < j < |r| && r[i].score == r[j].score ==> Rank(r[i].id) < Rank(r[j].id)
  {
    var u := Unranked(config, data);
    UnrankedInFixedOrder(config, data);
    forall i, j | 0 <= i < j < |SortDescending(u)| && SortDescending(u)[i].score == SortDescending(u)[j].score
      ensures Rank(SortDescending(u)[i].id) < Rank(SortDescending(u)[j].id)
    {
      SortKeepsTieOrder(u, i, j);
    }
  }

  // ---------------------------------------------------------------------------
  // Where the points go

  lemma {:induction false} MembersAppend(a: seq<Doc>, b: seq<Doc>, id: string)
    ensures Members(a + b, id) == Members(a, id) + Members(b, id)
    decreases |a|
  {
    if a == [] {
      assert a + b == b;
    } else {
      assert (a + b)[1..] == a[1..] + b;
      MembersAppend(a[1..], b, id);
    }
  }

  lemma {:induction false} SumOfScoresAppend(a: seq<Doc>, b: seq<Doc>)
    ensures SumOfScores(a + b) == SumOfScores(a) + SumOfScores(b)
    decreases |a|
  {
    if a == [] {
      assert a + b == b;
    } else {
      assert (a + b)[1..] == a[1..] + b;
      SumOfScoresAppend(a[1..], b);
    }
  }

  /** A group's total is additive over the records. */
  lemma TotalAppend(a: seq<Doc>, b: seq<Doc>, id: string)
    ensures Total(a + b, id) == Total(a, id) + Total(b, id)
  {
    MembersAppend(a, b, id);
    SumOfScoresAppend(Members(a, id), Members(b, id));
  }

  /** A record whose group is not one of the four fixed ids (an admin-added
      group, a deleted group, a missing group) changes no standing. */
  lemma OrphanContributesNothing(config: map<string, Doc>, a: seq<Doc>, e: Doc, b: seq<Doc>)
    requires forall id :: id in GroupIds ==> !InGroup(e, id)
    ensures GroupStandings(config, a + [e] + b) == GroupStandings(config, a + b)
  {
    forall id | id in GroupIds ensures Total(a + [e] + b, id) == Total(a + b, id) {
      TotalAppend(a + [e], b, id);
      TotalAppend(a, [e], id);
      TotalAppend(a, b, id);
      assert Members([e], id) == [];
    }
    assert Unranked(config, a + [e] + b) == Unranked(config, a + b);
  }

  /** The points of the records that name one of the four fixed groups. */
  function Counted(data: seq<Doc>): int
    decreases |data|
  {
    if data == [] then 0
    else
      var g := Get(data[0], "group");
      (if g.Str? && g.s in GroupIds then ScoreOf(data[0]) else 0) + Counted(data[1..])
  }

  lemma TotalCons(e: Doc, rest: seq<Doc>, id: string)
    ensures Total([e] + rest, id) == (if InGroup(e, id) then ScoreOf(e) else 0) + Total(rest, id)
  {
    TotalAppend([e], rest, id);
    assert [e][1..] == [];
    assert Members([e], id) == (if InGroup(e, id) then [e] else []);
    assert SumOfScores([e]) == ScoreOf(e);
  }

  /** A record counts towards at most one of the four groups. */
  lemma RecordCountsOnce(e: Doc)
    ensures var g := Get(e, "group");
      (if InGroup(e, GroupIds[0]) then ScoreOf(e) else 0)
      + (if InGroup(e, GroupIds[1]) then ScoreOf(e) else 0)
      + (if InGroup(e, GroupIds[2]) then ScoreOf(e) else 0)
      + (if InGroup(e, GroupIds[3]) then ScoreOf(e) else 0)
      == (if g.Str? && g.s in GroupIds then ScoreOf(e) else 0)
  {
    var g := Get(e, "group");
    if g.Str? && g.s in GroupIds {
      assert g.s == GroupIds[0] || g.s == GroupIds[1] || g.s == GroupIds[2] || g.s == GroupIds[3];
    }
  }

  lemma {:induction false} TotalsAddUp(data: seq<Doc>)
    ensures Total(data, GroupIds[0]) + Total(data, GroupIds[1]) + Total(data, GroupIds[2])
      + Total(data, GroupIds[3]) == Counted(data)
    decreases |data|
  {
    if data != [] {
      var e := data[0];
      TotalsAddUp(data[1..]);
      assert data == [e] + data[1..];
      TotalCons(e, data[1..], GroupIds[0]);
      TotalCons(e, data[1..], GroupIds[1]);
      TotalCons(e, data[1..], GroupIds[2]);
      TotalCons(e, data[1..], GroupIds[3]);
      RecordCountsOnce(e);
    }
  }

  lemma SumScoresOfFour(u: seq<Standing>)
    requires |u| == 4
    ensures SumScores(u) == u[0].score + u[1].score + u[2].score + u[3].score
  {
    assert u[1..][0] == u[1] && u[1..][1..] == u[2..];
    assert u[2..][0] == u[2] && u[2..][1..] == u[3..];
    assert u[3..][0] == u[3] && u[3..][1..] == [];
    assert SumScores(u[3..]) == u[3].score;
    assert SumScores(u[2..]) == u[2].score + u[3].score;
  }

  /** No point is lost or counted twice: the totals on the board add up to
      exactly the points of the records tagged with a ranked group. */
  lemma StandingsConservePoints(config: map<string, Doc>, data: seq<Doc>)
    ensures SumScores(GroupStandings(config, data)) == Counted(data)
  {
    var u := Unranked(config, data);
    TotalsAddUp(data);
    SortKeepsSum(u);
    SumScoresOfFour(u);
  }
}
