/**
 * Creator selection and bookkeeping (src/creator/mod.rs): the set of followed and supported
 * creators, the creator filter and its counts, the chunking of each creator's posts for the
 * post pipeline, the widths of the creator table, and the loop that records synced authors.
 */
module Creators {
  import opened Wrappers
  import opened Strings
  import F = Fanbox
  import Seqs
  import Config
  import Api

  // ---------------------------------------------------------------------------
  // The creator set
  // ---------------------------------------------------------------------------

  /**
   * One of the two creator lists: empty when that kind of creator is not accepted, and
   * empty when fetching it failed (the failure is only logged).
   */
  function Listed(accepted: bool, fetched: Result<seq<F.Creator>, Api.ApiError>): (r: seq<F.Creator>)
    ensures !accepted || fetched.Err? ==> r == []
    ensures accepted && fetched.Ok? ==> r == fetched.value
  {
    if !accepted then [] else if fetched.Ok? then fetched.value else []
  }

  /** The `HashSet` the two lists are extended into: each creator once, from either list. */
  function CreatorSet(following: seq<F.Creator>, supporting: seq<F.Creator>): (s: set<F.Creator>)
    ensures forall c :: c in s <==> c in following || c in supporting
  {
    set c | c in following + supporting
  }

  /** A sequence has no more distinct elements than positions; used by `CreatorSetSize`. */
  lemma {:induction false} SetOfSeqSize<T>(s: seq<T>)
    ensures |set x | x in s| <= |s|
  {
    if s != [] {
      SetOfSeqSize(s[1..]);
      assert (set x | x in s) == {s[0]} + (set x | x in s[1..]);
    }
  }

  /** Merging never yields more creators than the two lists hold together. */
  lemma CreatorSetSize(following: seq<F.Creator>, supporting: seq<F.Creator>)
    ensures |CreatorSet(following, supporting)| <= |following| + |supporting|
  {
    SetOfSeqSize(following + supporting);
    assert CreatorSet(following, supporting) == set c | c in following + supporting;
  }

  // ---------------------------------------------------------------------------
  // Filter counts
  // ---------------------------------------------------------------------------

  /** `creators.retain(|c| config.filter_creator(c))`. */
  function Retain(config: Config.Config, creators: set<F.Creator>): (kept: set<F.Creator>)
    ensures kept <= creators
    ensures forall c :: c in kept <==> c in creators && Config.FilterCreator(config, c)
  {
    set c | c in creators && Config.FilterCreator(config, c)
  }

  /** The three numbers logged: the total, the excluded and the included creators. */
  datatype Counts = Counts(total: nat, excluded: nat, included: nat)

  /** A subset is no larger than its superset; `FilterCounts` needs it for a `nat` difference. */
  lemma SubsetSize<T>(a: set<T>, b: set<T>)
    requires a <= b
    ensures |a| <= |b|
  {
    assert b == a + (b - a);
  }

  /**
   * `total`, `filtered` and `offset = total - filtered`: the included creators are those the
   * filter accepts, and the subtraction never goes below zero.
   */
  function FilterCounts(config: Config.Config, creators: set<F.Creator>): (r: Counts)
    ensures r.total == |creators|
    ensures r.included == |Retain(config, creators)|
    ensures r.excluded + r.included == r.total
  {
    var kept := Retain(config, creators);
    SubsetSize(kept, creators);
    Counts(|creators|, |creators| - |kept|, |kept|)
  }

  /** With no filter in force every creator is included and none excluded. */
  lemma NoFilterIncludesAll(config: Config.Config, creators: set<F.Creator>)
    requires !config.skipFree && config.whitelist == [] && config.blacklist == []
    ensures FilterCounts(config, creators).excluded == 0
  {
    assert Retain(config, creators) == creators;
  }

  // ---------------------------------------------------------------------------
  // Chunking a creator's posts
  // ---------------------------------------------------------------------------

  function PostFilter(config: Config.Config): F.PostListItem -> bool {
    (post: F.PostListItem) => Config.FilterPost(config, post)
  }

  /**
   * The chunk loop: the posts that pass `filter_post` and then `unsynced` (the archive
   * query `filter_unsynced_post`), in order, sent as successive chunks of `chunkSize`
   * posts, the last one possibly shorter.
   */
  method ChunkPosts(config: Config.Config, items: seq<F.PostListItem>, unsynced: F.PostListItem -> bool, chunkSize: nat)
    returns (sent: seq<seq<F.PostListItem>>)
    requires chunkSize > 0
    ensures Seqs.Flatten(sent) == Seqs.Filter(Seqs.Filter(items, PostFilter(config)), unsynced)
    ensures forall k :: 0 <= k < |sent| ==> 0 < |sent[k]| <= chunkSize
    ensures forall k :: 0 <= k < |sent| - 1 ==> |sent[k]| == chunkSize
  {
    var posts := Seqs.Filter(Seqs.Filter(items, PostFilter(config)), unsynced);
    sent := [];
    var i := 0;
    while i < |posts|
      invariant 0 <= i <= |posts|
      invariant Seqs.Flatten(sent) == posts[..i]
      invariant forall k :: 0 <= k < |sent| ==> 0 < |sent[k]| <= chunkSize
      invariant forall k :: 0 <= k < |sent| - 1 ==> |sent[k]| == chunkSize
      invariant i < |posts| ==> forall k :: 0 <= k < |sent| ==> |sent[k]| == chunkSize
    {
      var j := if i + chunkSize <= |posts| then i + chunkSize else |posts|;
      var chunk := posts[i..j];
      Seqs.FlattenConcat(sent, [chunk]);
      assert Seqs.Flatten([chunk]) == chunk + Seqs.Flatten([]);
      assert posts[..i] + chunk == posts[..j];
      sent := sent + [chunk];
      i := j;
    }
    assert posts[..i] == posts;
  }

  /** Every post sent has passed both filters, and every post that passes both is sent. */
  lemma SentPostsPassFilters(config: Config.Config, items: seq<F.PostListItem>, unsynced: F.PostListItem -> bool,
                             sent: seq<seq<F.PostListItem>>)
    requires Seqs.Flatten(sent) == Seqs.Filter(Seqs.Filter(items, PostFilter(config)), unsynced)
    ensures forall p :: p in Seqs.Flatten(sent) <==> p in items && Config.FilterPost(config, p) && unsynced(p)
  {
    Seqs.FilterMembers(items, PostFilter(config));
    Seqs.FilterMembers(Seqs.Filter(items, PostFilter(config)), unsynced);
  }

  // ---------------------------------------------------------------------------
  // The creator table
  // ---------------------------------------------------------------------------

  /** The row order of the table: by creator id, ascending. */
  function ById(): (F.Creator, F.Creator) -> bool {
    (a: F.Creator, b: F.Creator) => StrLe(a.creatorId, b.creatorId)
  }

  lemma ByIdIsTotalPreorder()
    ensures Seqs.TotalPreorder(ById())
  {
    forall a: F.Creator, b: F.Creator ensures ById()(a, b) || ById()(b, a) {
      StrLeTotal(a.creatorId, b.creatorId);
    }
    forall a: F.Creator, b: F.Creator, c: F.Creator | ById()(a, b) && ById()(b, c) ensures ById()(a, c) {
      StrLeTransitive(a.creatorId, b.creatorId, c.creatorId);
    }
  }

  /** The digits the fee column shows. */
  function FeeDigits(c: F.Creator): (n: nat)
    ensures n >= 1
    ensures DigitsValue(NatToString(c.fee)) == c.fee
  {
    DigitsValueOfNatToString(c.fee);
    |NatToString(c.fee)|
  }

  /**
   * The width loop of `display_creators`: the id column is as wide as the longest id but at
   * least 11, the fee column as wide as the longest fee but at least 5.
   */
  method ColumnWidths(rows: seq<F.Creator>) returns (idWidth: nat, feeWidth: nat)
    ensures idWidth >= 11 && forall k :: 0 <= k < |rows| ==> |rows[k].creatorId| <= idWidth
    ensures idWidth == 11 || exists k :: 0 <= k < |rows| && |rows[k].creatorId| == idWidth
    ensures feeWidth >= 5 && forall k :: 0 <= k < |rows| ==> FeeDigits(rows[k]) <= feeWidth
    ensures feeWidth == 5 || exists k :: 0 <= k < |rows| && FeeDigits(rows[k]) == feeWidth
  {
    idWidth, feeWidth := 11, 5;
    for i := 0 to |rows|
      invariant idWidth >= 11 && forall k :: 0 <= k < i ==> |rows[k].creatorId| <= idWidth
      invariant idWidth == 11 || exists k :: 0 <= k < i && |rows[k].creatorId| == idWidth
      invariant feeWidth >= 5 && forall k :: 0 <= k < i ==> FeeDigits(rows[k]) <= feeWidth
      invariant feeWidth == 5 || exists k :: 0 <= k < i && FeeDigits(rows[k]) == feeWidth
    {
      if |rows[i].creatorId| > idWidth {
        idWidth := |rows[i].creatorId|;
      }
      if FeeDigits(rows[i]) > feeWidth {
        feeWidth := FeeDigits(rows[i]);
      }
    }
  }

  /** Sorting keeps exactly the creators of the set. */
  lemma SortedRowsAreTheSet(creators: set<F.Creator>, listing: seq<F.Creator>)
    requires forall c :: c in creators <==> c in listing
    ensures multiset(Seqs.SortBy(listing, ById())) == multiset(listing)
    ensures forall c :: c in Seqs.SortBy(listing, ById()) <==> c in creators
    ensures Seqs.SortedBy(Seqs.SortBy(listing, ById()), ById())
  {
    var rows := Seqs.SortBy(listing, ById());
    ByIdIsTotalPreorder();
    Seqs.SortBySorted(listing, ById());
    forall c ensures c in rows <==> c in listing {
      assert c in rows <==> c in multiset(rows);
    }
  }

  /**
   * `display_creators`: the creators (listed in the set's iteration order) sorted by id,
   * and the column widths of the table.
   */
  method DisplayCreators(creators: set<F.Creator>, listing: seq<F.Creator>)
    returns (rows: seq<F.Creator>, idWidth: nat, feeWidth: nat)
    requires forall c :: c in creators <==> c in listing
    ensures multiset(rows) == multiset(listing)
    ensures forall c :: c in rows <==> c in creators
    ensures Seqs.SortedBy(rows, ById())
    ensures idWidth >= 11 && forall k :: 0 <= k < |rows| ==> |rows[k].creatorId| <= idWidth
    ensures idWidth == 11 || exists k :: 0 <= k < |rows| && |rows[k].creatorId| == idWidth
    ensures feeWidth >= 5 && forall k :: 0 <= k < |rows| ==> FeeDigits(rows[k]) <= feeWidth
    ensures feeWidth == 5 || exists k :: 0 <= k < |rows| && FeeDigits(rows[k]) == feeWidth
  {
    rows := Seqs.SortBy(listing, ById());
    SortedRowsAreTheSet(creators, listing);
    idWidth, feeWidth := ColumnWidths(rows);
  }

  // ---------------------------------------------------------------------------
  // Recording synced authors
  // ---------------------------------------------------------------------------

  /**
   * The authors table after syncing `creators` in order into `m`: a creator whose author
   * sync gives an id is entered under its creator id; one whose sync fails is skipped.
   */
  function Synced(m: map<String, nat>, creators: seq<F.Creator>, sync: F.Creator -> Option<nat>): (r: map<String, nat>)
    ensures m.Keys <= r.Keys
    ensures |r| <= |m| + |creators|
    ensures (forall k :: 0 <= k < |creators| ==> sync(creators[k]).None?) ==> r == m
    decreases |creators|
  {
    if creators == [] then m
    else
      var c := creators[0];
      Synced(if sync(c).Some? then m[c.creatorId := sync(c).value] else m, creators[1..], sync)
  }

  /** The table's keys are the earlier ones and the ids of the creators whose sync succeeded. */
  lemma {:induction false} SyncedKeys(m: map<String, nat>, creators: seq<F.Creator>, sync: F.Creator -> Option<nat>, id: String)
    ensures id in Synced(m, creators, sync) <==>
      id in m || exists k :: 0 <= k < |creators| && creators[k].creatorId == id && sync(creators[k]).Some?
    decreases |creators|
  {
    if creators != [] {
      var c := creators[0];
      var m' := if sync(c).Some? then m[c.creatorId := sync(c).value] else m;
      SyncedKeys(m', creators[1..], sync, id);
      if exists k :: 0 <= k < |creators| && creators[k].creatorId == id && sync(creators[k]).Some? {
        var k :| 0 <= k < |creators| && creators[k].creatorId == id && sync(creators[k]).Some?;
        if k > 0 { assert creators[1..][k - 1] == creators[k]; }
      }
    }
  }

  /** Entries under ids no creator in the list has are left as they were. */
  lemma {:induction false} SyncedKeepsOthers(m: map<String, nat>, creators: seq<F.Creator>, sync: F.Creator -> Option<nat>, id: String)
    requires id in m
    requires forall k :: 0 <= k < |creators| ==> creators[k].creatorId != id
    ensures id in Synced(m, creators, sync) && Synced(m, creators, sync)[id] == m[id]
    decreases |creators|
  {
    if creators != [] {
      var c := creators[0];
      var m' := if sync(c).Some? then m[c.creatorId := sync(c).value] else m;
      SyncedKeepsOthers(m', creators[1..], sync, id);
    }
  }

  /** A creator whose id no other creator shares is entered with the author its sync produced. */
  lemma {:induction false} SyncedRecords(m: map<String, nat>, creators: seq<F.Creator>, sync: F.Creator -> Option<nat>, i: nat)
    requires i < |creators| && sync(creators[i]).Some?
    requires forall k :: 0 <= k < |creators| && k != i ==> creators[k].creatorId != creators[i].creatorId
    ensures creators[i].creatorId in Synced(m, creators, sync)
    ensures Synced(m, creators, sync)[creators[i].creatorId] == sync(creators[i]).value
    decreases |creators|
  {
    var c := creators[0];
    var m' := if sync(c).Some? then m[c.creatorId := sync(c).value] else m;
    if i == 0 {
      SyncedKeepsOthers(m', creators[1..], sync, c.creatorId);
    } else {
      SyncedRecords(m', creators[1..], sync, i - 1);
    }
  }

  /** `Authors`: the shared table from creator id to the archive's author id. */
  class Authors {
    var entries: map<String, nat>

    constructor()
      ensures entries == map[]
    {
      entries := map[];
    }

    /**
     * `sync_creators`: when the transaction and both platform records could be opened
     * (`prepared`), each creator (in the set's iteration order) whose author sync succeeds is
     * recorded and a failing one is skipped; otherwise the call fails before touching the table.
     */
    method SyncCreators(prepared: bool, creators: seq<F.Creator>, sync: F.Creator -> Option<nat>) returns (ok: bool)
      modifies this
      ensures ok == prepared
      ensures entries == if prepared then Synced(old(entries), creators, sync) else old(entries)
    {
      if !prepared {
        return false;
      }
      var i := 0;
      while i < |creators|
        invariant 0 <= i <= |creators|
        invariant Synced(entries, creators[i..], sync) == Synced(old(entries), creators, sync)
      {
        var c := creators[i];
        assert creators[i..][1..] == creators[i + 1..];
        if sync(c).Some? {
          entries := entries[c.creatorId := sync(c).value];
        }
        i := i + 1;
      }
      return true;
    }
  }
}
