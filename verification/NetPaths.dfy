/**
 The path table of src/db.rs: `get_all_paths` expands sub-networks in place, recursively, and
 `resolve_net_path` walks the table the other way. SQL and text formats are parameters: `Db` holds
 the table's rows per network text, how ids are written, which paths are directories (no file
 extension), which are plain (relative and normalised) and how a directory is joined with a path below it.
 */
module NetPaths {
  import opened Properties

  /** `gateway`: some ordering index is u16::MAX. `target` is None when its text is no id. */
  datatype Row = Row(path: string, target: Option<Bid>, gateway: bool)

  datatype Listed = Listed(path: string, bid: Bid)

  datatype Db = Db(
    table: map<string, seq<Row>>,
    bidText: Bid -> string,
    brefText: Bid -> string,
    isDir: string -> bool,
    join: (string, string) -> string,
    plain: string -> bool)
  {
    function Rows(net: string): seq<Row> {
      if net in table then table[net] else []
    }
  }

  /** Rows that are listed at all: index rows only on request, unparsable targets never. */
  function Listing(rows: seq<Row>, includeIndex: bool): seq<Listed> {
    if rows == [] then []
    else
      var r := rows[|rows| - 1];
      Listing(rows[..|rows| - 1], includeIndex)
      + (if r.path == "" || (!includeIndex && r.gateway) || r.target.None? then []
         else [Listed(r.path, r.target.value)])
  }

  /** A row is listed exactly if it has a path and a target, and is no index row or those are wanted. */
  lemma {:induction false} ListedRow(rows: seq<Row>, includeIndex: bool, l: Listed)
    ensures l in Listing(rows, includeIndex) <==>
            exists r :: r in rows && r.path == l.path != "" && r.target == Some(l.bid) && (includeIndex || !r.gateway)
  {
    if rows == [] {
    } else {
      assert rows == rows[..|rows| - 1] + [rows[|rows| - 1]];
      ListedRow(rows[..|rows| - 1], includeIndex, l);
    }
  }

  lemma ListingLast(rows: seq<Row>, includeIndex: bool)
    requires rows != []
    ensures var n, r := |rows| - 1, rows[|rows| - 1];
            Listing(rows, includeIndex) == Listing(rows[..n], includeIndex) + (
              if r.path == "" || (!includeIndex && r.gateway) || r.target.None? then []
              else [Listed(r.path, r.target.value)])
  {
  }

  /** Rows are listed in their order. */
  lemma {:induction false} ListedInOrder(a: seq<Row>, b: seq<Row>, includeIndex: bool)
    ensures Listing(a + b, includeIndex) == Listing(a, includeIndex) + Listing(b, includeIndex)
  {
    if b == [] {
      assert a + b == a;
    } else {
      var n, all := |b| - 1, a + b;
      ListedInOrder(a, b[..n], includeIndex);
      assert all[..|all| - 1] == a + b[..n] && all[|all| - 1] == b[n];
      ListingLast(all, includeIndex);
      ListingLast(b, includeIndex);
      hide Listing;
    }
  }

  predicate Eligible(db: Db, processed: set<Bid>, l: Listed) {
    db.isDir(l.path) && l.bid !in processed
  }

  /** The sub-networks a listing is expanded with. */
  function NewNets(db: Db, rows: seq<Listed>, processed: set<Bid>): (nets: set<Bid>)
    ensures forall n :: n in nets <==>
            exists i :: 0 <= i < |rows| && Eligible(db, processed, rows[i]) && rows[i].bid == n
  {
    set i | 0 <= i < |rows| && Eligible(db, processed, rows[i]) :: rows[i].bid
  }

  /** The row a sub-network's paths replace. */
  predicate IsFirst(db: Db, rows: seq<Listed>, processed: set<Bid>, i: nat)
    requires i < |rows|
  {
    && Eligible(db, processed, rows[i])
    && forall j | 0 <= j < i && Eligible(db, processed, rows[j]) :: rows[j].bid != rows[i].bid
  }

  /** The networks marked processed in the call for `sub`. */
  function Handed(db: Db, net: Bid, rows: seq<Listed>, processed: set<Bid>, sub: Bid): set<Bid> {
    processed + {net} + NewNets(db, rows, processed) - {sub}
  }

  function NetListing(db: Db, net: Bid, includeIndex: bool): seq<Listed> {
    Listing(db.Rows(db.bidText(net)), includeIndex)
  }

  /** The network lists `sub` under a directory path. */
  predicate Lists(db: Db, includeIndex: bool, net: Bid, sub: Bid) {
    exists l :: l in NetListing(db, net, includeIndex) && l.bid == sub && db.isDir(l.path)
  }

  /** Each network lists the next one. */
  ghost predicate IsNetChain(db: Db, includeIndex: bool, nets: seq<Bid>) {
    forall i | 0 <= i < |nets| - 1 :: Lists(db, includeIndex, nets[i], nets[i + 1])
  }

  /** A chain of networks from `net` to `sub`. */
  ghost predicate LeadsTo(db: Db, includeIndex: bool, nets: seq<Bid>, net: Bid, sub: Bid) {
    nets != [] && nets[0] == net && nets[|nets| - 1] == sub && IsNetChain(db, includeIndex, nets)
  }

  ghost predicate Below(db: Db, includeIndex: bool, net: Bid, sub: Bid) {
    exists nets :: LeadsTo(db, includeIndex, nets, net, sub)
  }

  /** Every id the table can name. */
  function Targets(db: Db): set<Bid> {
    set k, r | k in db.table && r in db.table[k] && r.target.Some? :: r.target.value
  }

  lemma ListedIsTarget(db: Db, net: Bid, includeIndex: bool, l: Listed)
    requires l in NetListing(db, net, includeIndex)
    ensures l.bid in Targets(db)
  {
    ListedRow(db.Rows(db.bidText(net)), includeIndex, l);
  }

  /** Without a self-listing each call leaves fewer networks unprocessed. */
  lemma CallShrinks(db: Db, net: Bid, includeIndex: bool, processed: set<Bid>, sub: Bid)
    requires net !in processed && sub != net
    requires exists l :: l in NetListing(db, net, includeIndex) && l.bid == sub
    requires sub !in processed
    ensures var handed := Handed(db, net, NetListing(db, net, includeIndex), processed, sub);
            Targets(db) + {sub} - handed < Targets(db) + {net} - processed
  {
    var rows := NetListing(db, net, includeIndex);
    var l :| l in rows && l.bid == sub;
    ListedIsTarget(db, net, includeIndex, l);
    hide Targets, NewNets;
    var handed := Handed(db, net, rows, processed, sub);
    assert net in handed && net in Targets(db) + {net} - processed;
  }

  /** Neither the network nor any network below it lists itself. */
  ghost predicate SelfFree(db: Db, includeIndex: bool, net: Bid) {
    forall sub | Below(db, includeIndex, net, sub) :: !Lists(db, includeIndex, sub, sub)
  }

  lemma BelowItself(db: Db, includeIndex: bool, net: Bid)
    ensures Below(db, includeIndex, net, net)
  {
    assert LeadsTo(db, includeIndex, [net], net, net);
  }

  lemma BelowListed(db: Db, includeIndex: bool, net: Bid, sub: Bid, b: Bid)
    requires Lists(db, includeIndex, net, sub) && Below(db, includeIndex, sub, b)
    ensures Below(db, includeIndex, net, b)
  {
    var nets :| LeadsTo(db, includeIndex, nets, sub, b);
    hide Lists;
    assert LeadsTo(db, includeIndex, [net] + nets, net, b);
  }

  lemma SubSelfFree(db: Db, includeIndex: bool, net: Bid, sub: Bid)
    requires SelfFree(db, includeIndex, net)
    ensures !Lists(db, includeIndex, net, net)
    ensures Lists(db, includeIndex, net, sub) ==> SelfFree(db, includeIndex, sub)
  {
    BelowItself(db, includeIndex, net);
    hide Below, Lists;
    if Lists(db, includeIndex, net, sub) {
      forall b | Below(db, includeIndex, sub, b) ensures !Lists(db, includeIndex, b, b) {
        BelowListed(db, includeIndex, net, sub, b);
      }
    }
  }

  /** Sub-paths moved under their directory. */
  function Joined(db: Db, dir: string, sub: seq<Listed>): (r: seq<Listed>)
    ensures |r| == |sub|
    ensures forall i | 0 <= i < |r| :: r[i] == Listed(db.join(dir, sub[i].path), sub[i].bid)
  {
    if sub == [] then []
    else
      var last := sub[|sub| - 1];
      Joined(db, dir, sub[..|sub| - 1]) + [Listed(db.join(dir, last.path), last.bid)]
  }

  /** What a sub-network's first row becomes. */
  function BlockOf(db: Db, row: Listed, sub: seq<Listed>): seq<Listed> {
    if sub == [] then [row] else Joined(db, row.path, sub)
  }

  /** In-place expansion: each row in order, the first one of a non-empty sub-network replaced by its paths. */
  ghost function AllPaths(db: Db, net: Bid, includeIndex: bool, processed: set<Bid>): seq<Listed>
    requires SelfFree(db, includeIndex, net)
    decreases Targets(db) + {net} - processed, 1, 0
  {
    if net in processed then []
    else Expanded(db, net, includeIndex, processed, |NetListing(db, net, includeIndex)|)
  }

  ghost function Expanded(db: Db, net: Bid, includeIndex: bool, processed: set<Bid>, k: nat): seq<Listed>
    requires SelfFree(db, includeIndex, net) && net !in processed && k <= |NetListing(db, net, includeIndex)|
    decreases Targets(db) + {net} - processed, 0, k + 1
  {
    if k == 0 then []
    else Expanded(db, net, includeIndex, processed, k - 1) + Block(db, net, includeIndex, processed, k - 1)
  }

  ghost function Block(db: Db, net: Bid, includeIndex: bool, processed: set<Bid>, i: nat): seq<Listed>
    requires SelfFree(db, includeIndex, net) && net !in processed && i < |NetListing(db, net, includeIndex)|
    decreases Targets(db) + {net} - processed, 0, 0
  {
    var rows := NetListing(db, net, includeIndex);
    if !IsFirst(db, rows, processed, i) then [rows[i]]
    else
      assert rows[i] in rows && Lists(db, includeIndex, net, rows[i].bid);
      SubSelfFree(db, includeIndex, net, rows[i].bid);
      CallShrinks(db, net, includeIndex, processed, rows[i].bid);
      BlockOf(db, rows[i], AllPaths(db, rows[i].bid, includeIndex, Handed(db, net, rows, processed, rows[i].bid)))
  }

  /** The networks listed under a directory path and not processed yet. */
  function OpenNets(db: Db, rows: seq<Listed>, processed: set<Bid>): set<Bid> {
    set i | 0 <= i < |rows| && db.isDir(rows[i].path) && rows[i].bid !in processed :: rows[i].bid
  }

  /** `block` is what row `i` contributes, given `sub`, the paths of its network below it. */
  predicate Contributes(db: Db, rows: seq<Listed>, processed: set<Bid>, i: nat, sub: seq<Listed>, block: seq<Listed>)
    requires i < |rows|
  {
    if db.isDir(rows[i].path) && rows[i].bid !in processed && sub != []
       && forall j | 0 <= j < i && db.isDir(rows[j].path) :: rows[j].bid != rows[i].bid
    then |block| == |sub|
      && forall m | 0 <= m < |sub| :: block[m] == Listed(db.join(rows[i].path, sub[m].path), sub[m].bid)
    else block == [rows[i]]
  }

  /**
   The paths of a network are those its rows contribute, one after another. In the call for a sub-network this
   network, what it was told and its other sub-networks count as processed.
   */
  lemma PathsUnfold(db: Db, net: Bid, includeIndex: bool, processed: set<Bid>) returns (blocks: seq<seq<Listed>>)
    requires SelfFree(db, includeIndex, net) && net !in processed
    ensures var rows := NetListing(db, net, includeIndex);
            && |blocks| == |rows| && Flatten(blocks) == AllPaths(db, net, includeIndex, processed)
            && forall i | 0 <= i < |rows| ::
                 && (db.isDir(rows[i].path) ==> SelfFree(db, includeIndex, rows[i].bid))
                 && Contributes(db, rows, processed, i,
                      if db.isDir(rows[i].path)
                      then AllPaths(db, rows[i].bid, includeIndex,
                             processed + {net} + OpenNets(db, rows, processed) - {rows[i].bid})
                      else [],
                      blocks[i])
  {
    var rows := NetListing(db, net, includeIndex);
    blocks := seq(|rows|, i requires 0 <= i < |rows| => Block(db, net, includeIndex, processed, i));
    BlocksFlatten(db, net, includeIndex, processed, |rows|, blocks);
    assert blocks[..|rows|] == blocks;
    assert AllPaths(db, net, includeIndex, processed) == Expanded(db, net, includeIndex, processed, |rows|);
    hide AllPaths, Expanded, Flatten, SelfFree, NetListing;
    forall i | 0 <= i < |rows|
      ensures db.isDir(rows[i].path) ==> SelfFree(db, includeIndex, rows[i].bid)
      ensures Contributes(db, rows, processed, i,
                if db.isDir(rows[i].path)
                then AllPaths(db, rows[i].bid, includeIndex,
                       processed + {net} + OpenNets(db, rows, processed) - {rows[i].bid})
                else [],
                blocks[i])
    {
      BlockContributes(db, net, includeIndex, processed, i);
    }
  }

  lemma BlockContributes(db: Db, net: Bid, includeIndex: bool, processed: set<Bid>, i: nat)
    requires SelfFree(db, includeIndex, net) && net !in processed && i < |NetListing(db, net, includeIndex)|
    ensures var rows := NetListing(db, net, includeIndex);
            && (db.isDir(rows[i].path) ==> SelfFree(db, includeIndex, rows[i].bid))
            && Contributes(db, rows, processed, i,
                 if db.isDir(rows[i].path)
                 then AllPaths(db, rows[i].bid, includeIndex,
                        processed + {net} + OpenNets(db, rows, processed) - {rows[i].bid})
                 else [],
                 Block(db, net, includeIndex, processed, i))
  {
    var rows := NetListing(db, net, includeIndex);
    if db.isDir(rows[i].path) {
      assert rows[i] in rows && Lists(db, includeIndex, net, rows[i].bid);
      SubSelfFree(db, includeIndex, net, rows[i].bid);
      assert OpenNets(db, rows, processed) == NewNets(db, rows, processed);
    }
    hide AllPaths, SelfFree, NetListing, Listing, NewNets, OpenNets;
  }

  lemma {:induction false} BlocksFlatten(db: Db, net: Bid, includeIndex: bool, processed: set<Bid>, k: nat,
      blocks: seq<seq<Listed>>)
    requires SelfFree(db, includeIndex, net) && net !in processed && k <= |NetListing(db, net, includeIndex)|
    requires k <= |blocks| && forall i | 0 <= i < k :: blocks[i] == Block(db, net, includeIndex, processed, i)
    ensures Flatten(blocks[..k]) == Expanded(db, net, includeIndex, processed, k)
  {
    hide Block, SelfFree, NetListing;
    if k == 0 {
    } else {
      BlocksFlatten(db, net, includeIndex, processed, k - 1, blocks);
      assert blocks[..k][..k - 1] == blocks[..k - 1];
    }
  }

  // ------------------------------------------------------------------ the splice loop

  function Flatten(blocks: seq<seq<Listed>>): seq<Listed> {
    if blocks == [] then [] else Flatten(blocks[..|blocks| - 1]) + blocks[|blocks| - 1]
  }

  /** Where block `i` starts. */
  function Offset(blocks: seq<seq<Listed>>, i: nat): nat
    requires i <= |blocks|
  {
    |Flatten(blocks[..i])|
  }

  /** Replacing one block splices the flat list and shifts only what follows. */
  lemma {:induction false} SpliceBlock(blocks: seq<seq<Listed>>, i: nat, b: seq<Listed>)
    requires i < |blocks|
    ensures Offset(blocks, i) + |blocks[i]| <= |Flatten(blocks)|
    ensures Flatten(blocks)[Offset(blocks, i)..Offset(blocks, i) + |blocks[i]|] == blocks[i]
    ensures Flatten(blocks[i := b])
         == Flatten(blocks)[..Offset(blocks, i)] + b + Flatten(blocks)[Offset(blocks, i) + |blocks[i]|..]
    decreases |blocks|
  {
    var n := |blocks| - 1;
    assert blocks[..|blocks|] == blocks;
    if i == n {
      assert blocks[i := b][..n] == blocks[..n];
    } else {
      SpliceBlock(blocks[..n], i, b);
      assert blocks[..n][..i] == blocks[..i];
      assert blocks[i := b][..n] == blocks[..n][i := b];
    }
  }

  lemma OffsetAfter(blocks: seq<seq<Listed>>, i: nat, b: seq<Listed>, j: nat)
    requires i < |blocks| && j <= |blocks|
    ensures j <= i ==> Offset(blocks[i := b], j) == Offset(blocks, j)
    ensures i < j ==> Offset(blocks[i := b], j) == Offset(blocks, j) - |blocks[i]| + |b|
  {
    if j <= i {
      assert blocks[i := b][..j] == blocks[..j];
    } else {
      assert blocks[i := b][..j] == blocks[..j][i := b];
      SpliceBlock(blocks[..j], i, b);
      assert blocks[..j][..i] == blocks[..i];
    }
  }

  /** `origins` lists the positions of the expandable rows, ascending. */
  ghost predicate IsOrigins(db: Db, rows: seq<Listed>, processed: set<Bid>, n: nat, origins: seq<nat>)
    requires n <= |rows|
  {
    && (forall i, j | 0 <= i < j < |origins| :: origins[i] < origins[j])
    && forall p: nat :: p in origins <==> p < n && Eligible(db, processed, rows[p])
  }

  /** Each expandable row's current position in the spliced list, with its network. */
  ghost predicate Placed(rows: seq<Listed>, blocks: seq<seq<Listed>>, origins: seq<nat>, rowNets: seq<(nat, Bid)>) {
    && |rowNets| == |origins| && |blocks| == |rows|
    && forall j | 0 <= j < |origins| ::
         origins[j] < |rows| && rowNets[j].0 == Offset(blocks, origins[j]) && rowNets[j].1 == rows[origins[j]].bid
  }

  /** The blocks once every network outside `todo` was spliced in. */
  ghost predicate SplicedBut(db: Db, net: Bid, includeIndex: bool, processed: set<Bid>, todo: set<Bid>,
      blocks: seq<seq<Listed>>)
    requires SelfFree(db, includeIndex, net) && net !in processed
  {
    var rows := NetListing(db, net, includeIndex);
    && |blocks| == |rows|
    && forall i | 0 <= i < |rows| ::
         blocks[i] == if IsFirst(db, rows, processed, i) && rows[i].bid !in todo
                      then Block(db, net, includeIndex, processed, i) else [rows[i]]
  }

  method RowNets(db: Db, rows: seq<Listed>, processed: set<Bid>) returns (rowNets: seq<(nat, Bid)>,
      ghost origins: seq<nat>)
    ensures IsOrigins(db, rows, processed, |rows|, origins)
    ensures |rowNets| == |origins|
    ensures forall j | 0 <= j < |origins| ::
            origins[j] < |rows| && rowNets[j].0 == origins[j] && rowNets[j].1 == rows[origins[j]].bid
  {
    rowNets, origins := [], [];
    for i := 0 to |rows|
      invariant IsOrigins(db, rows, processed, i, origins)
      invariant |rowNets| == |origins|
      invariant forall j | 0 <= j < |origins| ::
              origins[j] < i && rowNets[j].0 == origins[j] && rowNets[j].1 == rows[origins[j]].bid
    {
      if Eligible(db, processed, rows[i]) {
        NextOrigin(db, rows, processed, i, origins);
        rowNets := rowNets + [(i, rows[i].bid)];
        origins := origins + [i];
      }
    }
  }

  lemma NextOrigin(db: Db, rows: seq<Listed>, processed: set<Bid>, i: nat, origins: seq<nat>)
    requires i < |rows| && Eligible(db, processed, rows[i]) && IsOrigins(db, rows, processed, i, origins)
    ensures IsOrigins(db, rows, processed, i + 1, origins + [i])
  {
    forall j | 0 <= j < |origins| ensures origins[j] < i {
      assert origins[j] in origins;
    }
    assert (origins + [i])[|origins|] == i;
  }

  /** The first expandable row of a network. */
  method FirstRow(rowNets: seq<(nat, Bid)>, net: Bid) returns (at: nat)
    requires exists j :: 0 <= j < |rowNets| && rowNets[j].1 == net
    ensures at < |rowNets| && rowNets[at].1 == net && forall j | 0 <= j < at :: rowNets[j].1 != net
  {
    at := 0;
    while rowNets[at].1 != net
      invariant at < |rowNets| && forall j | 0 <= j < at :: rowNets[j].1 != net
      decreases |rowNets| - at
    {
      at := at + 1;
    }
  }

  lemma FirstOrigin(db: Db, rows: seq<Listed>, processed: set<Bid>, blocks: seq<seq<Listed>>, origins: seq<nat>,
    rowNets: seq<(nat, Bid)>, at: nat)
    requires IsOrigins(db, rows, processed, |rows|, origins) && Placed(rows, blocks, origins, rowNets) && at < |rowNets|
    requires forall j | 0 <= j < at :: rowNets[j].1 != rowNets[at].1
    ensures origins[at] < |rows| && IsFirst(db, rows, processed, origins[at])
  {
    hide Offset, Eligible;
    assert origins[at] in origins;
    forall p: nat | p < origins[at] && Eligible(db, processed, rows[p])
      ensures rows[p].bid != rows[origins[at]].bid
    {
      assert p in origins;
      var j :| 0 <= j < |origins| && origins[j] == p;
      assert rowNets[j].1 == rows[p].bid;
    }
  }

  lemma NetHasRow(db: Db, rows: seq<Listed>, processed: set<Bid>, blocks: seq<seq<Listed>>, origins: seq<nat>,
    rowNets: seq<(nat, Bid)>, n: Bid)
    requires IsOrigins(db, rows, processed, |rows|, origins) && Placed(rows, blocks, origins, rowNets)
    requires n in NewNets(db, rows, processed)
    ensures exists j :: 0 <= j < |rowNets| && rowNets[j].1 == n
  {
    hide Offset, Eligible;
    var i: nat :| i < |rows| && Eligible(db, processed, rows[i]) && rows[i].bid == n;
    assert i in origins;
    var j :| 0 <= j < |origins| && origins[j] == i;
    assert rowNets[j].1 == n;
  }

  /** Splice the sub-paths, if any, over the row at `rowNets[at]` and shift the rows behind it. */
  method Splice(ghost rows: seq<Listed>, ghost blocks: seq<seq<Listed>>, ghost origins: seq<nat>,
    results: seq<Listed>, rowNets: seq<(nat, Bid)>, at: nat, db: Db, sub: seq<Listed>)
    returns (results': seq<Listed>, rowNets': seq<(nat, Bid)>)
    requires Placed(rows, blocks, origins, rowNets) && results == Flatten(blocks) && at < |rowNets|
    requires forall i, j | 0 <= i < j < |origins| :: origins[i] < origins[j]
    requires blocks[origins[at]] == [rows[origins[at]]]
    ensures var blocks' := blocks[origins[at] := BlockOf(db, rows[origins[at]], sub)];
            results' == Flatten(blocks') && Placed(rows, blocks', origins, rowNets')
  {
    results', rowNets' := results, rowNets;
    ghost var row := rows[origins[at]];
    if sub == [] {
      assert blocks[origins[at] := [row]] == blocks;
      return;
    }
    var start := rowNets[at].0;
    SpliceBlock(blocks, origins[at], Joined(db, row.path, sub));
    assert results[start..start + 1] == [row];
    assert results[start] == row;
    var joined := Joined(db, results[start].path, sub);
    var incr := |sub| - 1;
    results' := results[..start] + joined + results[start + 1..];
    rowNets' := rowNets[..at + 1] + ShiftAll(rowNets[at + 1..], incr);
    ghost var blocks' := blocks[origins[at] := joined];
    forall j | 0 <= j < |origins|
      ensures rowNets'[j].0 == Offset(blocks', origins[j]) && rowNets'[j].1 == rows[origins[j]].bid
    {
      hide Offset, Flatten, Joined;
      OffsetAfter(blocks, origins[at], joined, origins[j]);
      if j <= at {
        assert rowNets'[j] == rowNets[j];
      } else {
        assert rowNets'[j] == (rowNets[j].0 + incr, rowNets[j].1);
      }
    }
  }

  function ShiftAll(rowNets: seq<(nat, Bid)>, incr: nat): (r: seq<(nat, Bid)>)
    ensures |r| == |rowNets|
    ensures forall i | 0 <= i < |r| :: r[i] == (rowNets[i].0 + incr, rowNets[i].1)
  {
    if rowNets == [] then []
    else ShiftAll(rowNets[..|rowNets| - 1], incr) + [(rowNets[|rowNets| - 1].0 + incr, rowNets[|rowNets| - 1].1)]
  }

  /** One sub-network done: its first row holds its paths, or stays when there are none. */
  lemma SplicedNext(db: Db, net: Bid, includeIndex: bool, processed: set<Bid>, todo: set<Bid>,
    blocks: seq<seq<Listed>>, f: nat)
    requires SelfFree(db, includeIndex, net) && net !in processed
    requires SplicedBut(db, net, includeIndex, processed, todo, blocks)
    requires f < |NetListing(db, net, includeIndex)| && IsFirst(db, NetListing(db, net, includeIndex), processed, f)
    requires NetListing(db, net, includeIndex)[f].bid in todo
    ensures blocks[f] == [NetListing(db, net, includeIndex)[f]]
    ensures SplicedBut(db, net, includeIndex, processed, todo - {NetListing(db, net, includeIndex)[f].bid},
              blocks[f := Block(db, net, includeIndex, processed, f)])
  {
    hide Block, Eligible, NetListing;
  }

  lemma {:induction false} SplicedIsExpanded(db: Db, net: Bid, includeIndex: bool, processed: set<Bid>,
    blocks: seq<seq<Listed>>, k: nat)
    requires SelfFree(db, includeIndex, net) && net !in processed && k <= |blocks|
    requires SplicedBut(db, net, includeIndex, processed, {}, blocks)
    ensures Flatten(blocks[..k]) == Expanded(db, net, includeIndex, processed, k)
  {
    hide NetListing, IsFirst, Block, SelfFree, Targets;
    if k == 0 {
    } else {
      SplicedIsExpanded(db, net, includeIndex, processed, blocks, k - 1);
      assert blocks[..k][..k - 1] == blocks[..k - 1];
      NotFirstBlock(db, net, includeIndex, processed, k - 1);
    }
  }

  lemma NotFirstBlock(db: Db, net: Bid, includeIndex: bool, processed: set<Bid>, i: nat)
    requires SelfFree(db, includeIndex, net) && net !in processed && i < |NetListing(db, net, includeIndex)|
    ensures !IsFirst(db, NetListing(db, net, includeIndex), processed, i) ==>
              Block(db, net, includeIndex, processed, i) == [NetListing(db, net, includeIndex)[i]]
  {
  }

  /** The recursion behind a first row, as the expansion sees it. */
  lemma FirstBlock(db: Db, net: Bid, includeIndex: bool, processed: set<Bid>, i: nat)
    requires SelfFree(db, includeIndex, net) && net !in processed && i < |NetListing(db, net, includeIndex)|
    requires IsFirst(db, NetListing(db, net, includeIndex), processed, i)
    requires SelfFree(db, includeIndex, NetListing(db, net, includeIndex)[i].bid)
    ensures var rows := NetListing(db, net, includeIndex);
            var sub := AllPaths(db, rows[i].bid, includeIndex, Handed(db, net, rows, processed, rows[i].bid));
            Block(db, net, includeIndex, processed, i) == BlockOf(db, rows[i], sub)
  {
  }

  lemma NewNetIsCallable(db: Db, net: Bid, includeIndex: bool, processed: set<Bid>, sub: Bid)
    requires SelfFree(db, includeIndex, net) && net !in processed
    requires sub in NewNets(db, NetListing(db, net, includeIndex), processed)
    ensures SelfFree(db, includeIndex, sub)
    ensures var handed := Handed(db, net, NetListing(db, net, includeIndex), processed, sub);
            Targets(db) + {sub} - handed < Targets(db) + {net} - processed
  {
    var rows := NetListing(db, net, includeIndex);
    var i: nat :| i < |rows| && Eligible(db, processed, rows[i]) && rows[i].bid == sub;
    assert rows[i] in rows && Lists(db, includeIndex, net, sub);
    SubSelfFree(db, includeIndex, net, sub);
    hide SelfFree;
    CallShrinks(db, net, includeIndex, processed, sub);
  }

  /** The row that position `at` stands for, and what putting its block there completes. */
  lemma FirstOf(db: Db, net: Bid, includeIndex: bool, processed: set<Bid>, todo: set<Bid>, blocks: seq<seq<Listed>>,
    origins: seq<nat>, rowNets: seq<(nat, Bid)>, at: nat, n: Bid) returns (f: nat)
    requires SelfFree(db, includeIndex, net) && net !in processed
    requires IsOrigins(db, NetListing(db, net, includeIndex), processed, |NetListing(db, net, includeIndex)|, origins)
    requires Placed(NetListing(db, net, includeIndex), blocks, origins, rowNets)
    requires SplicedBut(db, net, includeIndex, processed, todo, blocks)
    requires at < |rowNets| && rowNets[at].1 == n && n in todo && forall j | 0 <= j < at :: rowNets[j].1 != n
    requires SelfFree(db, includeIndex, n)
    ensures var rows := NetListing(db, net, includeIndex);
            var sub := AllPaths(db, n, includeIndex, Handed(db, net, rows, processed, n));
            && at < |origins| && origins[at] == f < |rows| == |blocks| && rows[f].bid == n && blocks[f] == [rows[f]]
            && (forall i, j | 0 <= i < j < |origins| :: origins[i] < origins[j])
            && SplicedBut(db, net, includeIndex, processed, todo - {n},
                 blocks[f := BlockOf(db, rows[f], sub)])
  {
    f := origins[at];
    FirstOrigin(db, NetListing(db, net, includeIndex), processed, blocks, origins, rowNets, at);
    hide Eligible, NetListing, IsFirst, Handed, Offset, Block;
    FirstBlock(db, net, includeIndex, processed, f);
    SplicedNext(db, net, includeIndex, processed, todo, blocks, f);
  }

  lemma SingletonOffset(rows: seq<Listed>, blocks: seq<seq<Listed>>, i: nat)
    requires |blocks| == |rows| && forall k | 0 <= k < |rows| :: blocks[k] == [rows[k]]
    requires i <= |rows|
    ensures Flatten(blocks[..i]) == rows[..i]
    ensures Offset(blocks, i) == i
  {
    if i > 0 {
      SingletonOffset(rows, blocks, i - 1);
      assert blocks[..i][..i - 1] == blocks[..i - 1];
    }
  }

  /** Before the loop: every row is its own block. */
  lemma NothingSpliced(db: Db, net: Bid, includeIndex: bool, processed: set<Bid>, origins: seq<nat>,
      rowNets: seq<(nat, Bid)>)
    returns (blocks: seq<seq<Listed>>)
    requires SelfFree(db, includeIndex, net) && net !in processed
    requires |rowNets| == |origins|
    requires var rows := NetListing(db, net, includeIndex);
             forall j | 0 <= j < |origins| :: origins[j] < |rows| && rowNets[j].0 == origins[j]
                 && rowNets[j].1 == rows[origins[j]].bid
    ensures var rows := NetListing(db, net, includeIndex);
            && rows == Flatten(blocks) && Placed(rows, blocks, origins, rowNets)
            && SplicedBut(db, net, includeIndex, processed, NewNets(db, rows, processed), blocks)
  {
    var rows := NetListing(db, net, includeIndex);
    blocks := seq(|rows|, i requires 0 <= i < |rows| => [rows[i]]);
    forall i | 0 <= i <= |rows| ensures Offset(blocks, i) == i {
      SingletonOffset(rows, blocks, i);
    }
    SingletonOffset(rows, blocks, |rows|);
    assert blocks[..|rows|] == blocks;
    hide Block, Offset;
    assert forall i | 0 <= i < |rows| && IsFirst(db, rows, processed, i) :: rows[i].bid in NewNets(db, rows, processed);
  }

  /** The loop's state while the networks of `todo` are still to be spliced in. */
  ghost predicate Splicing(db: Db, net: Bid, includeIndex: bool, processed: set<Bid>, todo: set<Bid>,
    results: seq<Listed>, rowNets: seq<(nat, Bid)>, origins: seq<nat>, blocks: seq<seq<Listed>>)
    requires SelfFree(db, includeIndex, net) && net !in processed
  {
    var rows := NetListing(db, net, includeIndex);
    && todo <= NewNets(db, rows, processed)
    && IsOrigins(db, rows, processed, |rows|, origins)
    && results == Flatten(blocks)
    && Placed(rows, blocks, origins, rowNets)
    && SplicedBut(db, net, includeIndex, processed, todo, blocks)
  }

  method SpliceNet(db: Db, net: Bid, includeIndex: bool, processed: set<Bid>, ghost todo: set<Bid>, n: Bid,
      sub: seq<Listed>,
    results: seq<Listed>, rowNets: seq<(nat, Bid)>, ghost origins: seq<nat>, ghost blocks: seq<seq<Listed>>)
    returns (results': seq<Listed>, rowNets': seq<(nat, Bid)>, ghost blocks': seq<seq<Listed>>)
    requires SelfFree(db, includeIndex, net) && net !in processed && n in todo
    requires Splicing(db, net, includeIndex, processed, todo, results, rowNets, origins, blocks)
    requires SelfFree(db, includeIndex, n)
    requires sub == AllPaths(db, n, includeIndex, Handed(db, net, NetListing(db, net, includeIndex), processed, n))
    ensures Splicing(db, net, includeIndex, processed, todo - {n}, results', rowNets', origins, blocks')
  {
    hide Flatten, Placed, SplicedBut, Block, NetListing, NewNets, Offset, Eligible, IsFirst, Handed, IsOrigins,
        SelfFree, BlockOf, AllPaths;
    ghost var rows := NetListing(db, net, includeIndex);
    NetHasRow(db, rows, processed, blocks, origins, rowNets, n);
    var at := FirstRow(rowNets, n);
    ghost var f := FirstOf(db, net, includeIndex, processed, todo, blocks, origins, rowNets, at, n);
    results', rowNets' := Splice(rows, blocks, origins, results, rowNets, at, db, sub);
    blocks' := blocks[f := BlockOf(db, rows[f], sub)];
  }

  /** Sub-networks may be taken in any order (the program takes them by id); the list is the same. */
  method GetAllPaths(db: Db, net: Bid, includeIndex: bool, processed: set<Bid>) returns (results: seq<Listed>)
    requires SelfFree(db, includeIndex, net)
    ensures results == AllPaths(db, net, includeIndex, processed)
    decreases Targets(db) + {net} - processed
  {
    AllPathsIs(db, net, includeIndex, processed);
    hide Placed, Flatten, Offset, NewNets, Handed, Targets, SelfFree, AllPaths, Expanded, IsOrigins, Splicing,
        NetListing;
    if net in processed { return []; }
    var rows := NetListing(db, net, includeIndex);
    var rowNets, origins := RowNets(db, rows, processed);
    var todo := NewNets(db, rows, processed);
    results := rows;
    ghost var blocks := SplicingStarts(db, net, includeIndex, processed, origins, rowNets);
    while todo != {}
      invariant todo <= NewNets(db, rows, processed)
      invariant Splicing(db, net, includeIndex, processed, todo, results, rowNets, origins, blocks)
      decreases todo
    {
      var n: Bid :| n in todo;
      NewNetIsCallable(db, net, includeIndex, processed, n);
      var sub := GetAllPaths(db, n, includeIndex, Handed(db, net, rows, processed, n));
      results, rowNets, blocks :=
        SpliceNet(db, net, includeIndex, processed, todo, n, sub, results, rowNets, origins, blocks);
      todo := todo - {n};
    }
    SplicingEnds(db, net, includeIndex, processed, results, rowNets, origins, blocks);
  }

  lemma SplicingStarts(db: Db, net: Bid, includeIndex: bool, processed: set<Bid>, origins: seq<nat>,
      rowNets: seq<(nat, Bid)>)
    returns (blocks: seq<seq<Listed>>)
    requires SelfFree(db, includeIndex, net) && net !in processed
    requires var rows := NetListing(db, net, includeIndex);
             && IsOrigins(db, rows, processed, |rows|, origins)
             && |rowNets| == |origins|
             && forall j | 0 <= j < |origins| ::
                  origins[j] < |rows| && rowNets[j].0 == origins[j] && rowNets[j].1 == rows[origins[j]].bid
    ensures var rows := NetListing(db, net, includeIndex);
            Splicing(db, net, includeIndex, processed, NewNets(db, rows, processed), rows, rowNets, origins, blocks)
  {
    blocks := NothingSpliced(db, net, includeIndex, processed, origins, rowNets);
    hide Placed, SplicedBut, Flatten, IsOrigins, NetListing, SelfFree;
  }

  lemma SplicingEnds(db: Db, net: Bid, includeIndex: bool, processed: set<Bid>,
      results: seq<Listed>, rowNets: seq<(nat, Bid)>, origins: seq<nat>, blocks: seq<seq<Listed>>)
    requires SelfFree(db, includeIndex, net) && net !in processed
    requires Splicing(db, net, includeIndex, processed, {}, results, rowNets, origins, blocks)
    ensures results == Expanded(db, net, includeIndex, processed, |NetListing(db, net, includeIndex)|)
  {
    hide Placed, SplicedBut, Flatten, IsOrigins, NetListing, SelfFree, Expanded;
    AllSpliced(db, net, includeIndex, processed, blocks);
  }

  lemma AllPathsIs(db: Db, net: Bid, includeIndex: bool, processed: set<Bid>)
    requires SelfFree(db, includeIndex, net)
    ensures net in processed ==> AllPaths(db, net, includeIndex, processed) == []
    ensures net !in processed ==>
              AllPaths(db, net, includeIndex, processed)
              == Expanded(db, net, includeIndex, processed, |NetListing(db, net, includeIndex)|)
  {
  }

  lemma AllSpliced(db: Db, net: Bid, includeIndex: bool, processed: set<Bid>, blocks: seq<seq<Listed>>)
    requires SelfFree(db, includeIndex, net) && net !in processed
    requires SplicedBut(db, net, includeIndex, processed, {}, blocks)
    ensures Flatten(blocks) == Expanded(db, net, includeIndex, processed, |NetListing(db, net, includeIndex)|)
  {
    hide NetListing, Block, IsFirst, Expanded;
    assert blocks[..|blocks|] == blocks;
    SplicedIsExpanded(db, net, includeIndex, processed, blocks, |blocks|);
  }
}
