/**
 * Loading every group's members (`loadOktaMembers` in okta.js): the groups are
 * split into consecutive chunks of at most 20; the listings of one chunk are
 * awaited together, and the next chunk starts only once that chunk completed.
 */
module Members {
  import opened Results
  import opened Promises
  import opened Pagination
  import opened Upstream

  const ChunkSize: nat := 20

  /** `slice(0, CHUNK)` then recurse on `slice(CHUNK)` while anything is left; no groups is one empty chunk. */
  function Chunks<T>(xs: seq<T>): (cs: seq<seq<T>>)
    ensures |cs| >= 1
    decreases |xs|
  {
    if |xs| <= ChunkSize then [xs] else [xs[..ChunkSize]] + Chunks(xs[ChunkSize..])
  }

  function Flatten<T>(xss: seq<seq<T>>): seq<T>
  {
    if |xss| == 0 then [] else xss[0] + Flatten(xss[1..])
  }

  /**
   * The chunks partition the groups in order: every chunk but the last holds
   * exactly 20, the last holds the rest (and is empty only when there are no groups).
   */
  lemma {:induction false} ChunksPartition<T>(xs: seq<T>)
    ensures Flatten(Chunks(xs)) == xs
    ensures |Chunks(xs)| == if |xs| == 0 then 1 else (|xs| + ChunkSize - 1) / ChunkSize
    ensures forall k :: 0 <= k < |Chunks(xs)| - 1 ==> |Chunks(xs)[k]| == ChunkSize
    ensures 1 <= |Chunks(xs)[|Chunks(xs)| - 1]| <= ChunkSize || xs == []
  {
    ChunksFlatten(xs);
    ChunksCount(xs);
    ChunksSizes(xs);
  }

  lemma {:induction false} ChunksFlatten<T>(xs: seq<T>)
    ensures Flatten(Chunks(xs)) == xs
    decreases |xs|
  {
    if |xs| > ChunkSize {
      var rest := xs[ChunkSize..];
      ChunksFlatten(rest);
      var cs := Chunks(xs);
      assert cs == [xs[..ChunkSize]] + Chunks(rest);
      assert cs[1..] == Chunks(rest);
      assert Flatten(cs) == xs[..ChunkSize] + Flatten(Chunks(rest));
      assert xs == xs[..ChunkSize] + rest;
    } else {
      assert Chunks(xs) == [xs];
      assert Flatten([xs]) == xs + Flatten([]);
    }
  }

  lemma {:induction false} ChunksCount<T>(xs: seq<T>)
    ensures |Chunks(xs)| == if |xs| == 0 then 1 else (|xs| + ChunkSize - 1) / ChunkSize
    decreases |xs|
  {
    if |xs| > ChunkSize {
      ChunksCount(xs[ChunkSize..]);
    }
  }

  lemma {:induction false} ChunksSizes<T>(xs: seq<T>)
    ensures forall k :: 0 <= k < |Chunks(xs)| - 1 ==> |Chunks(xs)[k]| == ChunkSize
    ensures 1 <= |Chunks(xs)[|Chunks(xs)| - 1]| <= ChunkSize || xs == []
    decreases |xs|
  {
    if |xs| > ChunkSize {
      var rest := xs[ChunkSize..];
      ChunksSizes(rest);
      var cs := Chunks(xs);
      assert cs == [xs[..ChunkSize]] + Chunks(rest);
      assert forall k :: 1 <= k < |cs| ==> cs[k] == Chunks(rest)[k - 1];
    }
  }

  /** Forty-five groups are loaded as chunks of 20, 20 and 5. */
  lemma FortyFiveGroups<T>(xs: seq<T>)
    requires |xs| == 45
    ensures |Chunks(xs)| == 3
    ensures |Chunks(xs)[0]| == 20 && |Chunks(xs)[1]| == 20 && |Chunks(xs)[2]| == 5
  {
    ChunksPartition(xs);
    ChunksPartition(xs[20..]);
    ChunksPartition(xs[40..]);
  }

  /** The member listing of one group, `getOktaList(g._links.users.href)`, mapped to the members' ids. */
  function MembersOf(g: Group, listing: string -> seq<Response<string>>): Settled<seq<string>, FetchError>
  {
    GetList(listing(g.membersUrl))
  }

  /** One chunk: all its listings run together (`Promise.all`), each group receiving its member ids. */
  function LoadChunk(chunk: seq<Group>, listing: string -> seq<Response<string>>): Settled<seq<MemberList>, FetchError>
  {
    var settled := All(seq(|chunk|, i requires 0 <= i < |chunk| => MembersOf(chunk[i], listing)));
    match settled
    case Resolved(ids) => Resolved(seq(|chunk|, i requires 0 <= i < |chunk| => MemberList(chunk[i], ids[i])))
    case Rejected(e) => Rejected(e)
    case Pending => Pending
  }

  /** The chunks in order, each started only after the previous one resolved. */
  function LoadChunks(chunks: seq<seq<Group>>, listing: string -> seq<Response<string>>): Settled<seq<MemberList>, FetchError>
  {
    if |chunks| == 0 then Resolved([])
    else match LoadChunk(chunks[0], listing)
      case Rejected(e) => Rejected(e)
      case Pending => Pending
      case Resolved(loaded) =>
        match LoadChunks(chunks[1..], listing)
        case Resolved(rest) => Resolved(loaded + rest)
        case Rejected(e) => Rejected(e)
        case Pending => Pending
  }

  /** `loadOktaMembers(groups)`. */
  function LoadMembers(groups: seq<Group>, listing: string -> seq<Response<string>>): Settled<seq<MemberList>, FetchError>
  {
    LoadChunks(Chunks(groups), listing)
  }

  /** The chunks whose listings were started: the first, and each one after a chunk that resolved. */
  function Started(chunks: seq<seq<Group>>, listing: string -> seq<Response<string>>): (started: seq<seq<Group>>)
    ensures |started| <= |chunks| && started == chunks[..|started|]
    ensures |chunks| > 0 ==> |started| > 0
    ensures forall k :: 0 <= k < |started| - 1 ==> LoadChunk(chunks[k], listing).Resolved?
  {
    if |chunks| == 0 then []
    else if LoadChunk(chunks[0], listing).Resolved? then
      var rest := Started(chunks[1..], listing);
      assert [chunks[0]] + rest == chunks[..|rest| + 1];
      [chunks[0]] + rest
    else [chunks[0]]
  }

  lemma {:induction false} LoadChunksResolved(chunks: seq<seq<Group>>, listing: string -> seq<Response<string>>)
    requires LoadChunks(chunks, listing).Resolved?
    ensures var loaded := LoadChunks(chunks, listing).value;
            && |loaded| == |Flatten(chunks)|
            && forall i :: 0 <= i < |loaded| ==>
                 && loaded[i].group == Flatten(chunks)[i]
                 && MembersOf(Flatten(chunks)[i], listing) == Resolved(loaded[i].memberIds)
    ensures Started(chunks, listing) == chunks
  {
    if |chunks| > 0 {
      var chunk := chunks[0];
      var settled := All(seq(|chunk|, i requires 0 <= i < |chunk| => MembersOf(chunk[i], listing)));
      assert settled.Resolved?;
      LoadChunksResolved(chunks[1..], listing);
      var head: seq<MemberList> := LoadChunk(chunk, listing).value;
      var rest: seq<MemberList> := LoadChunks(chunks[1..], listing).value;
      assert Flatten(chunks) == chunk + Flatten(chunks[1..]);
      forall i | 0 <= i < |head| + |rest|
        ensures (head + rest)[i].group == Flatten(chunks)[i]
        ensures MembersOf(Flatten(chunks)[i], listing) == Resolved((head + rest)[i].memberIds)
      {
        if i < |head| {
          assert settled.value[i] == settled.value[i];
        } else {
          assert (head + rest)[i] == rest[i - |head|];
        }
      }
    }
  }

  lemma {:induction false} LoadChunksRejected(chunks: seq<seq<Group>>, listing: string -> seq<Response<string>>)
    requires LoadChunks(chunks, listing).Rejected?
    ensures exists g :: g in Flatten(chunks) && MembersOf(g, listing) == Rejected(LoadChunks(chunks, listing).error)
  {
    var chunk := chunks[0];
    assert Flatten(chunks) == chunk + Flatten(chunks[1..]);
    var settled := All(seq(|chunk|, i requires 0 <= i < |chunk| => MembersOf(chunk[i], listing)));
    if settled.Rejected? {
      var i :| 0 <= i < |chunk| && MembersOf(chunk[i], listing) == Rejected(settled.error);
      assert chunk[i] in Flatten(chunks);
    } else {
      LoadChunksRejected(chunks[1..], listing);
      var g :| g in Flatten(chunks[1..]) && MembersOf(g, listing) == Rejected(LoadChunks(chunks[1..], listing).error);
      assert g in Flatten(chunks);
    }
  }

  /**
   * On success the same groups come back in the same order, each with the ids of
   * its listing's records, and every chunk was started; any rejection is the
   * rejection of some group's listing.
   */
  lemma LoadMembersOutcome(groups: seq<Group>, listing: string -> seq<Response<string>>)
    ensures LoadMembers(groups, listing).Resolved? ==>
              var loaded := LoadMembers(groups, listing).value;
              && |loaded| == |groups|
              && (forall i :: 0 <= i < |groups| ==>
                    loaded[i].group == groups[i] && MembersOf(groups[i], listing) == Resolved(loaded[i].memberIds))
              && Started(Chunks(groups), listing) == Chunks(groups)
    ensures LoadMembers(groups, listing).Rejected? ==>
              exists g :: g in groups && MembersOf(g, listing) == Rejected(LoadMembers(groups, listing).error)
  {
    ChunksPartition(groups);
    if LoadMembers(groups, listing).Resolved? {
      LoadChunksResolved(Chunks(groups), listing);
    }
    if LoadMembers(groups, listing).Rejected? {
      LoadChunksRejected(Chunks(groups), listing);
    }
  }
}
