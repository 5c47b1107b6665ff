/**
 Log scanning in the API server: api-server/src/lib/chain-sync.ts and
 api-server/src/routes/escrow.ts page through the chain in bounded ranges.
 */
module ChainScan {
  import opened Wrappers

  /** A log entry, with its indexed id argument when it decodes. */
  datatype Log = Log(id: Option<nat>, buyer: string, data: string)

  /** The logs of each block, and a filter on them. */
  type Chain = nat -> seq<Log>
  type Filter = Log -> bool

  function Matching(logs: seq<Log>, keep: Filter): seq<Log> {
    if logs == [] then [] else (if keep(logs[0]) then [logs[0]] else []) + Matching(logs[1..], keep)
  }

  /** eth_getLogs over an inclusive block range. */
  function GetLogs(chain: Chain, keep: Filter, from: nat, to: int): seq<Log>
    decreases to - from + 1
  {
    if from > to then [] else Matching(chain(from), keep) + GetLogs(chain, keep, from + 1, to)
  }

  lemma {:induction false} GetLogsSplit(chain: Chain, keep: Filter, from: nat, mid: int, to: int)
    requires from <= mid + 1 && mid <= to
    ensures GetLogs(chain, keep, from, to) == GetLogs(chain, keep, from, mid) + GetLogs(chain, keep, mid + 1, to)
    decreases mid - from + 1
  {
    if from <= mid {
      GetLogsSplit(chain, keep, from + 1, mid, to);
    }
  }

  const CHUNK_SIZE: nat := 2000

  function ChunkEnd(cursor: nat, latest: int): int {
    if cursor + CHUNK_SIZE - 1 < latest then cursor + CHUNK_SIZE - 1 else latest
  }

  /** The ranges that cover [cursor, latest] from the front. */
  function Chunks(cursor: nat, latest: int): seq<(nat, int)>
    decreases latest - cursor + 1
  {
    if cursor > latest then []
    else [(cursor, ChunkEnd(cursor, latest))] + Chunks(ChunkEnd(cursor, latest) + 1, latest)
  }

  /** From `cursor` on, contiguous, at most 2000 blocks each and all but the last
      exactly as many, ending at `latest`. */
  ghost predicate IsPartition(c: seq<(nat, int)>, cursor: nat, latest: int) {
    && (c == [] <==> cursor > latest)
    && (forall i :: 0 <= i < |c| ==> cursor <= c[i].0 <= c[i].1 <= latest && c[i].1 - c[i].0 + 1 <= CHUNK_SIZE)
    && (c != [] ==> c[0].0 == cursor && c[|c| - 1].1 == latest)
    && (forall i, j :: 0 <= i < j == i + 1 < |c| ==> c[j].0 == c[i].1 + 1 && c[i].1 - c[i].0 + 1 == CHUNK_SIZE)
  }

  lemma ConsPartition(first: (nat, int), rest: seq<(nat, int)>, latest: int)
    requires first.0 <= first.1 <= latest && first.1 - first.0 + 1 <= CHUNK_SIZE
    requires IsPartition(rest, first.1 + 1, latest)
    requires first.1 < latest ==> first.1 - first.0 + 1 == CHUNK_SIZE
    ensures IsPartition([first] + rest, first.0, latest)
  {
    var c := [first] + rest;
    forall i | 0 <= i < |c| ensures first.0 <= c[i].0 <= c[i].1 <= latest && c[i].1 - c[i].0 + 1 <= CHUNK_SIZE {
      assert i > 0 ==> c[i] == rest[i - 1];
    }
    forall i, j | 0 <= i < j == i + 1 < |c| ensures c[j].0 == c[i].1 + 1 && c[i].1 - c[i].0 + 1 == CHUNK_SIZE {
      assert c[j] == rest[i];
      assert i > 0 ==> c[i] == rest[i - 1];
    }
  }

  /** The chunks are a partition, so every block lies in exactly one. */
  lemma {:induction false} ChunksPartition(cursor: nat, latest: int)
    ensures IsPartition(Chunks(cursor, latest), cursor, latest)
    decreases latest - cursor + 1
  {
    if cursor <= latest {
      ChunksPartition(ChunkEnd(cursor, latest) + 1, latest);
      ConsPartition((cursor, ChunkEnd(cursor, latest)), Chunks(ChunkEnd(cursor, latest) + 1, latest), latest);
    }
  }

  predicate Covers(range: (nat, int), block: nat) {
    range.0 <= block <= range.1
  }

  lemma {:induction false} ChunksAscend(cursor: nat, latest: int, i: nat, j: nat)
    requires i < j < |Chunks(cursor, latest)|
    ensures Chunks(cursor, latest)[i].1 < Chunks(cursor, latest)[j].0
    decreases latest - cursor + 1
  {
    var next := ChunkEnd(cursor, latest) + 1;
    ChunksPartition(next, latest);
    assert Chunks(cursor, latest)[j] == Chunks(next, latest)[j - 1];
    if i > 0 {
      ChunksAscend(next, latest, i - 1, j - 1);
    }
  }

  lemma {:induction false} FindChunk(cursor: nat, latest: int, block: nat) returns (i: nat)
    requires cursor <= block <= latest
    ensures i < |Chunks(cursor, latest)| && Covers(Chunks(cursor, latest)[i], block)
    decreases latest - cursor + 1
  {
    var next := ChunkEnd(cursor, latest) + 1;
    if block < next {
      i := 0;
    } else {
      i := FindChunk(next, latest, block);
      assert Chunks(cursor, latest)[i + 1] == Chunks(next, latest)[i];
      i := i + 1;
    }
  }

  /** Every block in range is asked for in exactly one request. */
  lemma EveryBlockInOneChunk(cursor: nat, latest: int, block: nat)
    requires cursor <= block <= latest
    ensures var c := Chunks(cursor, latest);
      exists i :: 0 <= i < |c| && Covers(c[i], block) && (forall j :: 0 <= j < |c| && Covers(c[j], block) ==> j == i)
  {
    var c := Chunks(cursor, latest);
    var i := FindChunk(cursor, latest, block);
    forall j | 0 <= j < |c| && Covers(c[j], block) ensures j == i {
      if j < i {
        ChunksAscend(cursor, latest, j, i);
      } else if i < j {
        ChunksAscend(cursor, latest, i, j);
      }
    }
  }

  lemma Associate<T>(a: seq<T>, b: seq<T>, c: seq<T>)
    ensures a + (b + c) == a + b + c
  {
  }

  lemma FirstChunk(chain: Chain, keep: Filter, cursor: nat, latest: int)
    requires cursor <= latest
    ensures var end := ChunkEnd(cursor, latest);
      && cursor <= end <= latest
      && Chunks(cursor, latest) == [(cursor, end)] + Chunks(end + 1, latest)
      && GetLogs(chain, keep, cursor, latest) == GetLogs(chain, keep, cursor, end) + GetLogs(chain, keep, end + 1, latest)
  {
    GetLogsSplit(chain, keep, cursor, ChunkEnd(cursor, latest), latest);
  }

  /** One more request moves the first chunk of what is left to what is done. */
  lemma NextChunk(chain: Chain, keep: Filter, cursor: nat, latest: int, logs: seq<Log>, requests: seq<(nat, int)>)
    requires cursor <= latest
    ensures var end := ChunkEnd(cursor, latest);
      && cursor <= end <= latest
      && logs + GetLogs(chain, keep, cursor, latest)
         == logs + GetLogs(chain, keep, cursor, end) + GetLogs(chain, keep, end + 1, latest)
      && requests + Chunks(cursor, latest) == requests + [(cursor, end)] + Chunks(end + 1, latest)
  {
    var end := ChunkEnd(cursor, latest);
    FirstChunk(chain, keep, cursor, latest);
    Associate(logs, GetLogs(chain, keep, cursor, end), GetLogs(chain, keep, end + 1, latest));
    Associate(requests, [(cursor, end)], Chunks(end + 1, latest));
  }

  /** Stepping past the end of the range skips nothing. */
  lemma NothingBeyond(chain: Chain, keep: Filter, from: nat, latest: int)
    requires from <= latest
    ensures Chunks(ChunkEnd(from, latest) + 1, latest) == Chunks(from + CHUNK_SIZE, latest)
    ensures GetLogs(chain, keep, ChunkEnd(from, latest) + 1, latest) == GetLogs(chain, keep, from + CHUNK_SIZE, latest)
  {
  }

  /** fetchPolicyCreatedLogs: the cursor loop. `requests` lists the ranges asked for. */
  method FetchPolicyCreatedLogs(chain: Chain, keep: Filter, deployBlock: nat, latestBlock: nat)
    returns (all: seq<Log>, requests: seq<(nat, int)>)
    ensures all == GetLogs(chain, keep, deployBlock, latestBlock)
    ensures requests == Chunks(deployBlock, latestBlock)
  {
    all, requests := [], [];
    var cursor := deployBlock;
    while cursor <= latestBlock
      invariant deployBlock <= cursor && (cursor <= latestBlock + 1 || cursor == deployBlock)
      invariant GetLogs(chain, keep, deployBlock, latestBlock) == all + GetLogs(chain, keep, cursor, latestBlock)
      invariant Chunks(deployBlock, latestBlock) == requests + Chunks(cursor, latestBlock)
      decreases latestBlock + 1 - cursor
    {
      var chunkEnd := if cursor + CHUNK_SIZE - 1 < latestBlock then cursor + CHUNK_SIZE - 1 else latestBlock;
      NextChunk(chain, keep, cursor, latestBlock, all, requests);
      all := all + GetLogs(chain, keep, cursor, chunkEnd);
      requests := requests + [(cursor, chunkEnd)];
      cursor := chunkEnd + 1;
    }
  }

  const ESCROW_CHUNK: nat := 1999

  lemma {:induction false} NextStep(chain: Chain, keep: Filter, from: nat, latest: int, logs: seq<Log>, requests: seq<(nat, int)>)
    requires from <= latest
    ensures var to := if from + ESCROW_CHUNK > latest then latest else from + ESCROW_CHUNK; var next := from + ESCROW_CHUNK + 1;
      && logs + GetLogs(chain, keep, from, latest) == logs + GetLogs(chain, keep, from, to) + GetLogs(chain, keep, next, latest)
      && requests + Chunks(from, latest) == requests + [(from, to)] + Chunks(next, latest)
  {
    assert ChunkEnd(from, latest) == (if from + ESCROW_CHUNK > latest then latest else from + ESCROW_CHUNK);
    NextChunk(chain, keep, from, latest, logs, requests);
    NothingBeyond(chain, keep, from, latest);
  }

  /** escrow.ts, fetchLogsInChunks: the same scan written as a stepping loop. */
  method FetchLogsInChunks(chain: Chain, keep: Filter, deployBlock: nat, latest: nat)
    returns (logs: seq<Log>, requests: seq<(nat, int)>)
    ensures logs == GetLogs(chain, keep, deployBlock, latest)
    ensures requests == Chunks(deployBlock, latest)
  {
    logs, requests := [], [];
    var from := deployBlock;
    while from <= latest
      invariant deployBlock <= from
      invariant GetLogs(chain, keep, deployBlock, latest) == logs + GetLogs(chain, keep, from, latest)
      invariant Chunks(deployBlock, latest) == requests + Chunks(from, latest)
      decreases latest + 1 - from
    {
      var to := if from + ESCROW_CHUNK > latest then latest else from + ESCROW_CHUNK;
      NextStep(chain, keep, from, latest, logs, requests);
      logs := logs + GetLogs(chain, keep, from, to);
      requests := requests + [(from, to)];
      from := from + ESCROW_CHUNK + 1;
    }
  }

  // ---------------------------------------------------------------------
  // Ids
  // ---------------------------------------------------------------------

  /** Each element once, at its first position: what a Set keeps. */
  function FirstOccurrences<T(==)>(s: seq<T>): seq<T> {
    if s == [] then []
    else
      var before := FirstOccurrences(s[..|s| - 1]);
      if s[|s| - 1] in before then before else before + [s[|s| - 1]]
  }

  function FirstIndex<T(==)>(s: seq<T>, x: T): (i: nat)
    requires x in s
    ensures i < |s| && s[i] == x && x !in s[..i]
  {
    if s[0] == x then 0 else 1 + FirstIndex(s[1..], x)
  }

  lemma {:induction false} FirstIndexPrefix<T>(s: seq<T>, last: T, x: T)
    requires x in s
    ensures FirstIndex(s + [last], x) == FirstIndex(s, x)
  {
    assert (s + [last])[0] == s[0];
    if s[0] != x {
      assert (s + [last])[1..] == s[1..] + [last];
      FirstIndexPrefix(s[1..], last, x);
    }
  }

  lemma {:induction false} FirstOccurrencesMembers<T>(s: seq<T>, x: T)
    ensures x in FirstOccurrences(s) <==> x in s
  {
    if s != [] {
      assert s == s[..|s| - 1] + [s[|s| - 1]];
      FirstOccurrencesMembers(s[..|s| - 1], x);
    }
  }

  /** No element twice, none lost, none invented, in order of first appearance. */
  lemma {:induction false} FirstOccurrencesKeepOrder<T>(s: seq<T>, i: nat, j: nat)
    requires i < j < |FirstOccurrences(s)|
    ensures var r := FirstOccurrences(s); r[i] in s && r[j] in s && FirstIndex(s, r[i]) < FirstIndex(s, r[j])
  {
    var init, last := s[..|s| - 1], s[|s| - 1];
    var before, r := FirstOccurrences(init), FirstOccurrences(s);
    assert s == init + [last];
    FirstOccurrencesMembers(init, r[i]);
    FirstIndexPrefix(init, last, r[i]);
    if j < |before| {
      FirstOccurrencesKeepOrder(init, i, j);
      FirstOccurrencesMembers(init, r[j]);
      FirstIndexPrefix(init, last, r[j]);
    } else {
      FirstOccurrencesMembers(init, last);
      FirstIndexOfNewcomer(init, last);
    }
  }

  lemma {:induction false} FirstIndexOfNewcomer<T>(s: seq<T>, last: T)
    requires last !in s
    ensures FirstIndex(s + [last], last) == |s|
  {
    if s != [] {
      assert (s + [last])[1..] == s[1..] + [last];
      FirstIndexOfNewcomer(s[1..], last);
    }
  }

  /** escrow.ts: the loop that collects each agreement id once, undefined ids included. */
  method DedupeAgreements(asInitiator: seq<Log>, asExecutor: seq<Log>) returns (ids: seq<Option<nat>>)
    ensures ids == FirstOccurrences(Ids(asInitiator + asExecutor))
  {
    var logs := asInitiator + asExecutor;
    var seen: set<Option<nat>> := {};
    ids := [];
    var i := 0;
    while i < |logs|
      invariant 0 <= i <= |logs|
      invariant ids == FirstOccurrences(Ids(logs)[..i])
      invariant seen == set id | id in ids
    {
      assert Ids(logs)[..i + 1][..i] == Ids(logs)[..i];
      if logs[i].id !in seen {
        seen := seen + {logs[i].id};
        ids := ids + [logs[i].id];
      }
      i := i + 1;
    }
    assert Ids(logs)[..i] == Ids(logs);
  }

  function Ids(logs: seq<Log>): (r: seq<Option<nat>>)
    ensures |r| == |logs|
  {
    seq(|logs|, i requires 0 <= i < |logs| => logs[i].id)
  }

  function DefinedIds(logs: seq<Log>): seq<nat> {
    if logs == [] then []
    else (if logs[0].id.Some? then [logs[0].id.value] else []) + DefinedIds(logs[1..])
  }

  /** Inserts before the first element that is not greater. */
  function InsertDescending(x: nat, s: seq<nat>): seq<nat> {
    if s == [] then [x] else if s[0] > x then [s[0]] + InsertDescending(x, s[1..]) else [x] + s
  }

  function SortDescending(s: seq<nat>): seq<nat> {
    if s == [] then [] else InsertDescending(s[0], SortDescending(s[1..]))
  }

  predicate StrictlyDescending(s: seq<nat>) {
    forall i, j :: 0 <= i < j < |s| ==> s[i] > s[j]
  }

  /** fetchAndCachePolicies: the ids whose policies are read back. */
  function PolicyIds(logs: seq<Log>): seq<nat> {
    SortDescending(FirstOccurrences(DefinedIds(logs)))
  }

  lemma {:induction false} InsertKeepsDescending(x: nat, s: seq<nat>)
    requires StrictlyDescending(s) && x !in s
    ensures StrictlyDescending(InsertDescending(x, s))
    ensures forall y :: y in InsertDescending(x, s) <==> y == x || y in s
  {
    if s != [] && s[0] > x {
      InsertKeepsDescending(x, s[1..]);
      var r := InsertDescending(x, s[1..]);
      forall k | 0 <= k < |r| ensures s[0] > r[k] {
        assert r[k] in r;
      }
    }
  }

  lemma {:induction false} SortIsDescending(s: seq<nat>)
    requires forall i, j :: 0 <= i < j < |s| ==> s[i] != s[j]
    ensures StrictlyDescending(SortDescending(s))
    ensures forall x :: x in SortDescending(s) <==> x in s
  {
    if s != [] {
      SortIsDescending(s[1..]);
      InsertKeepsDescending(s[0], SortDescending(s[1..]));
    }
  }

  lemma {:induction false} DefinedIdsMembers(logs: seq<Log>, x: nat)
    ensures x in DefinedIds(logs) <==> exists i :: 0 <= i < |logs| && logs[i].id == Some(x)
  {
    if logs != [] {
      DefinedIdsMembers(logs[1..], x);
      if x in DefinedIds(logs[1..]) {
        var i :| 0 <= i < |logs[1..]| && logs[1..][i].id == Some(x);
        assert logs[i + 1].id == Some(x);
      }
      if i :| 0 <= i < |logs| && logs[i].id == Some(x) {
        if i > 0 {
          assert logs[1..][i - 1].id == Some(x);
        }
      }
    }
  }

  /** The policy ids come newest first, each once, and are the ids of the logs. */
  lemma PolicyIdsAreTheLogIds(logs: seq<Log>)
    ensures StrictlyDescending(PolicyIds(logs))
    ensures forall x :: x in PolicyIds(logs) <==> exists i :: 0 <= i < |logs| && logs[i].id == Some(x)
  {
    var ids := DefinedIds(logs);
    var distinct := FirstOccurrences(ids);
    forall i, j | 0 <= i < j < |distinct| ensures distinct[i] != distinct[j] {
      FirstOccurrencesKeepOrder(ids, i, j);
    }
    SortIsDescending(distinct);
    forall x ensures x in PolicyIds(logs) <==> exists i :: 0 <= i < |logs| && logs[i].id == Some(x) {
      FirstOccurrencesMembers(ids, x);
      DefinedIdsMembers(logs, x);
    }
  }

  /** Any strictly descending arrangement of the same ids is this one, so the
      engine's own sort algorithm does not matter. */
  lemma {:induction false} DescendingIsUnique(a: seq<nat>, b: seq<nat>)
    requires StrictlyDescending(a) && StrictlyDescending(b) && forall x :: x in a <==> x in b
    ensures a == b
  {
    assert |b| > 0 ==> b[0] in b;
    if a != [] {
      assert a[0] in b && b[0] in a;
      assert a[0] == b[0];
      forall x ensures x in a[1..] <==> x in b[1..] {
        if x in a[1..] {
          assert x in b && x != a[0];
        }
        if x in b[1..] {
          assert x in a && x != b[0];
        }
      }
      DescendingIsUnique(a[1..], b[1..]);
    }
  }

  /** Scanning in chunks finds what one unbounded query would, however paged. */
  lemma ChunkedScanIsOneQuery(chain: Chain, keep: Filter, cursor: nat, latest: int)
    ensures GetLogs(chain, keep, cursor, latest) == Pages(chain, keep, Chunks(cursor, latest))
    decreases latest - cursor + 1
  {
    if cursor <= latest {
      var end := ChunkEnd(cursor, latest);
      FirstChunk(chain, keep, cursor, latest);
      ChunkedScanIsOneQuery(chain, keep, end + 1, latest);
      PagesFrom(chain, keep, (cursor, end), Chunks(end + 1, latest));
    }
  }

  lemma PagesFrom(chain: Chain, keep: Filter, first: (nat, int), rest: seq<(nat, int)>)
    ensures Pages(chain, keep, [first] + rest) == GetLogs(chain, keep, first.0, first.1) + Pages(chain, keep, rest)
  {
    assert ([first] + rest)[1..] == rest;
  }

  function Pages(chain: Chain, keep: Filter, ranges: seq<(nat, int)>): seq<Log> {
    if ranges == [] then [] else GetLogs(chain, keep, ranges[0].0, ranges[0].1) + Pages(chain, keep, ranges[1..])
  }
}
