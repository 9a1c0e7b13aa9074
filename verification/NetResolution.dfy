/**
 What enumeration and resolution of the path table guarantee together (src/db.rs): when the
 recursion ends, that every enumerated path resolves to its id, and which rows enumeration sees in
 a table that transactions wrote.
 */
module NetResolution {
  import opened Properties
  import opened NetPaths

  // ------------------------------------------------------------------ when the recursion ends

  datatype Call = Call(net: Bid, processed: set<Bid>)

  /** The call `c` makes the recursive call `d`. */
  ghost predicate Calls(db: Db, includeIndex: bool, c: Call, d: Call) {
    var rows := NetListing(db, c.net, includeIndex);
    && c.net !in c.processed
    && d.net in NewNets(db, rows, c.processed)
    && d.processed == Handed(db, c.net, rows, c.processed, d.net)
  }

  ghost predicate IsCallChain(db: Db, includeIndex: bool, chain: seq<Call>) {
    chain != [] && forall i | 0 <= i < |chain| - 1 :: Calls(db, includeIndex, chain[i], chain[i + 1])
  }

  ghost predicate ChainFrom(db: Db, includeIndex: bool, net: Bid, chain: seq<Call>) {
    IsCallChain(db, includeIndex, chain) && chain[0] == Call(net, {})
  }

  ghost predicate Bounded(db: Db, includeIndex: bool, net: Bid, bound: nat) {
    forall chain | ChainFrom(db, includeIndex, net, chain) :: |chain| <= bound
  }

  /** There is a limit on how deep the calls from `net` nest. */
  ghost predicate Ends(db: Db, includeIndex: bool, net: Bid) {
    exists bound :: Bounded(db, includeIndex, net, bound)
  }

  lemma {:induction false} ProperSubsetSize<T>(a: set<T>, b: set<T>)
    requires a < b
    ensures |a| < |b|
  {
    if a == {} {
      assert b != {};
    } else {
      var x :| x in a;
      ProperSubsetSize(a - {x}, b - {x});
    }
  }

  lemma {:induction false} ChainBound(db: Db, includeIndex: bool, chain: seq<Call>)
    requires IsCallChain(db, includeIndex, chain) && SelfFree(db, includeIndex, chain[0].net)
    ensures |chain| <= |Targets(db) + {chain[0].net} - chain[0].processed| + 2
    decreases |chain|
  {
    if |chain| == 1 {
    } else {
      var c, d := chain[0], chain[1];
      assert Calls(db, includeIndex, c, d);
      hide Targets, NewNets, NetListing, SelfFree;
      NewNetIsCallable(db, c.net, includeIndex, c.processed, d.net);
      ChainBound(db, includeIndex, chain[1..]);
      ProperSubsetSize(Targets(db) + {d.net} - d.processed, Targets(db) + {c.net} - c.processed);
    }
  }

  ghost predicate Last(chain: seq<Call>, net: Bid) {
    chain != [] && chain[|chain| - 1].net == net && net !in chain[|chain| - 1].processed
  }

  lemma OneMoreCall(db: Db, includeIndex: bool, net: Bid, chain: seq<Call>, a: Bid, b: Bid) returns (longer: seq<Call>)
    requires ChainFrom(db, includeIndex, net, chain) && Last(chain, a) && Lists(db, includeIndex, a, b)
    requires b !in chain[|chain| - 1].processed
    ensures ChainFrom(db, includeIndex, net, longer) && Last(longer, b) && |longer| == |chain| + 1
    ensures longer[..|chain|] == chain
  {
    var c := chain[|chain| - 1];
    var rows := NetListing(db, a, includeIndex);
    var l :| l in rows && l.bid == b && db.isDir(l.path);
    var i :| 0 <= i < |rows| && rows[i] == l;
    assert Eligible(db, c.processed, rows[i]);
    hide NetListing, Eligible;
    longer := chain + [Call(b, Handed(db, a, rows, c.processed, b))];
    assert Calls(db, includeIndex, c, longer[|chain|]);
  }

  /** A network that lists itself is called again with itself unprocessed, over and over. */
  lemma {:induction false} SelfCalls(db: Db, includeIndex: bool, net: Bid, chain: seq<Call>, sub: Bid, n: nat)
    returns (longer: seq<Call>)
    requires ChainFrom(db, includeIndex, net, chain) && Last(chain, sub) && Lists(db, includeIndex, sub, sub)
    ensures ChainFrom(db, includeIndex, net, longer) && Last(longer, sub) && |longer| == |chain| + n
  {
    if n == 0 {
      longer := chain;
    } else {
      longer := SelfCalls(db, includeIndex, net, chain, sub, n - 1);
      hide Lists, ChainFrom;
      longer := OneMoreCall(db, includeIndex, net, longer, sub, sub);
    }
  }

  /** Some chain of calls from `net` enters `sub` unprocessed. */
  ghost predicate Entered(db: Db, includeIndex: bool, net: Bid, sub: Bid) {
    exists chain :: ChainFrom(db, includeIndex, net, chain) && Last(chain, sub)
  }

  lemma ShorterChain(db: Db, includeIndex: bool, net: Bid, chain: seq<Call>)
    requires ChainFrom(db, includeIndex, net, chain) && |chain| > 1
    ensures ChainFrom(db, includeIndex, net, chain[..|chain| - 1])
    ensures Calls(db, includeIndex, chain[|chain| - 2], chain[|chain| - 1])
  {
    hide Calls;
    assert chain[..|chain| - 1][0] == chain[0];
    assert Calls(db, includeIndex, chain[|chain| - 2], chain[|chain| - 2 + 1]);
  }

  /** Whatever a call finds marked processed is entered elsewhere: it is an ancestor, or a sibling of one. */
  lemma {:induction false} ProcessedAreEntered(db: Db, includeIndex: bool, net: Bid, chain: seq<Call>, x: Bid)
    requires ChainFrom(db, includeIndex, net, chain) && x in chain[|chain| - 1].processed
    ensures Entered(db, includeIndex, net, x)
    decreases |chain|
  {
    if |chain| == 1 {
      assert false;
    } else {
      ShorterChain(db, includeIndex, net, chain);
      var before := chain[..|chain| - 1];
      var c, d := chain[|chain| - 2], chain[|chain| - 1];
      hide ChainFrom;
      if x in c.processed {
        ProcessedAreEntered(db, includeIndex, net, before, x);
      } else if x == c.net {
        assert Last(before, x);
      } else {
        NewNetListed(db, includeIndex, c, x);
        var longer := OneMoreCall(db, includeIndex, net, before, c.net, x);
      }
    }
  }

  lemma NewNetListed(db: Db, includeIndex: bool, c: Call, x: Bid)
    requires x in NewNets(db, NetListing(db, c.net, includeIndex), c.processed)
    ensures Lists(db, includeIndex, c.net, x)
  {
    var rows := NetListing(db, c.net, includeIndex);
    var i :| 0 <= i < |rows| && Eligible(db, c.processed, rows[i]) && rows[i].bid == x;
    assert rows[i] in rows;
  }

  /** Every network below `net` is entered. */
  lemma {:induction false} BelowIsEntered(db: Db, includeIndex: bool, net: Bid, nets: seq<Bid>, sub: Bid)
    requires LeadsTo(db, includeIndex, nets, net, sub)
    ensures Entered(db, includeIndex, net, sub)
    decreases |nets|
  {
    if |nets| == 1 {
      var chain := [Call(net, {})];
      assert ChainFrom(db, includeIndex, net, chain) && Last(chain, sub);
    } else {
      var prior := nets[|nets| - 2];
      assert Lists(db, includeIndex, prior, nets[|nets| - 2 + 1]);
      hide Lists;
      BelowIsEntered(db, includeIndex, net, nets[..|nets| - 1], prior);
      var chain: seq<Call> :| ChainFrom(db, includeIndex, net, chain) && Last(chain, prior);
      hide ChainFrom;
      if sub in chain[|chain| - 1].processed {
        ProcessedAreEntered(db, includeIndex, net, chain, sub);
      } else {
        var longer := OneMoreCall(db, includeIndex, net, chain, prior, sub);
      }
    }
  }

  /**
   Enumeration of one network ends exactly when neither it nor a network below it lists itself under
   a directory path; unrelated networks do not matter.
   */
  lemma EnumerationEndsIff(db: Db, includeIndex: bool, net: Bid)
    ensures Ends(db, includeIndex, net) <==> SelfFree(db, includeIndex, net)
  {
    if SelfFree(db, includeIndex, net) {
      var bound := |Targets(db) + {net}| + 2;
      forall chain | ChainFrom(db, includeIndex, net, chain) ensures |chain| <= bound {
        hide SelfFree;
        ChainBound(db, includeIndex, chain);
        assert Targets(db) + {net} - {} == Targets(db) + {net};
      }
      assert Bounded(db, includeIndex, net, bound);
    } else {
      var sub :| Below(db, includeIndex, net, sub) && Lists(db, includeIndex, sub, sub);
      var nets :| LeadsTo(db, includeIndex, nets, net, sub);
      BelowIsEntered(db, includeIndex, net, nets, sub);
      var chain: seq<Call> :| ChainFrom(db, includeIndex, net, chain) && Last(chain, sub);
      hide ChainFrom, Lists;
      forall bound: nat ensures !Bounded(db, includeIndex, net, bound) {
        var longer := SelfCalls(db, includeIndex, net, chain, sub, bound + 1);
      }
    }
  }

  /** A table with one row in which a network lists itself: its enumeration does not end. */
  lemma SelfListingDoesNotEnd(db: Db, net: Bid, path: string)
    requires db.Rows(db.bidText(net)) == [Row(path, Some(net), false)] && db.isDir(path) && path != ""
    ensures !Ends(db, true, net)
  {
    var rows := db.Rows(db.bidText(net));
    assert rows[..0] == [];
    assert Listing([], true) == [];
    assert NetListing(db, net, true) == [Listed(path, net)];
    assert Listed(path, net) in NetListing(db, net, true);
    BelowItself(db, true, net);
    EnumerationEndsIff(db, true, net);
  }

  /** Such a table: network 1 lists itself at `d`. */
  function OneRow(): Db {
    Db(map["1" := [Row("d", Some(1), false)]], b => "1", b => "1", p => true, (dir, rest) => dir, p => true)
  }

  lemma OneRowDoesNotEnd()
    ensures !Ends(OneRow(), true, 1)
  {
    SelfListingDoesNotEnd(OneRow(), 1, "d");
  }

  // ------------------------------------------------------------------ resolving a path

  function Find(rows: seq<Row>, path: string): Option<Row> {
    if rows == [] then None
    else if rows[0].path == path then Some(rows[0])
    else Find(rows[1..], path)
  }

  function FirstSlash(path: string): (i: nat)
    ensures i <= |path| && (i < |path| ==> path[i] == '/')
    ensures forall j | 0 <= j < i :: path[j] != '/'
  {
    if path == "" || path[0] == '/' then 0 else 1 + FirstSlash(path[1..])
  }

  /** A direct row, else the first segment names a sub-network and the rest is looked up there. */
  function Resolve(db: Db, net: Bid, path: string): Option<Bid>
    decreases |path|
  {
    var rows := db.Rows(db.brefText(net));
    match Find(rows, path)
    case Some(row) => row.target
    case None =>
      var slash := FirstSlash(path);
      if slash == |path| then None
      else match Find(rows, path[..slash])
        case Some(Row(_, Some(sub), _)) => Resolve(db, sub, path[slash + 1..])
        case _ => None
  }

  /** Enumeration reads no row that resolution does not: true when it reads none, or the same ones. */
  ghost predicate Covered(db: Db) {
    forall net, r | r in db.Rows(db.bidText(net)) :: r in db.Rows(db.brefText(net))
  }

  /** The table's UNIQUE(net, path). */
  ghost predicate UniquePaths(rows: seq<Row>) {
    forall i, j | 0 <= i < j < |rows| :: rows[i].path != rows[j].path
  }

  /** The row is a directory whose network lists something, so it may be replaced. */
  ghost predicate Expandable(db: Db, includeIndex: bool, r: Row) {
    r.target.Some? && db.isDir(r.path) && NetListing(db, r.target.value, includeIndex) != []
  }

  /** Sub-network names are single segments and no direct row starts with one and a slash. */
  ghost predicate Unshadowed(db: Db, includeIndex: bool, rows: seq<Row>) {
    && (forall r | r in rows && Expandable(db, includeIndex, r) :: '/' !in r.path)
    && (forall r, q | r in rows && Expandable(db, includeIndex, r) && q in rows :: !(r.path + "/" <= q.path))
  }

  /** The join of a single-segment directory with a plain path puts a slash between them. */
  ghost predicate PlainJoins(db: Db) {
    forall dir, rest | dir != "" && '/' !in dir && db.plain(rest) ::
      db.join(dir, rest) == dir + "/" + rest && db.plain(dir + "/" + rest)
  }

  /** Listed rows have plain paths. */
  ghost predicate PlainRows(db: Db, includeIndex: bool) {
    forall net, l | l in NetListing(db, net, includeIndex) :: db.plain(l.path)
  }

  /** The program's join of normalised paths that name a file: an absolute or an empty second path stands alone. */
  function JoinPath(dir: string, rest: string): string {
    if rest != "" && rest[0] == '/' then rest
    else if rest == "" then dir
    else dir + "/" + rest
  }

  /** It puts a slash before whatever is neither empty nor absolute. */
  lemma JoinPathIsPlain(db: Db)
    requires db.join == JoinPath && forall p :: db.plain(p) <==> p != "" && p[0] != '/'
    ensures PlainJoins(db)
  {
  }

  ghost predicate Resolvable(db: Db, includeIndex: bool) {
    && Covered(db) && PlainJoins(db) && PlainRows(db, includeIndex)
    && (forall net {:trigger db.brefText(net)} ::
          UniquePaths(db.Rows(db.brefText(net))) && Unshadowed(db, includeIndex, db.Rows(db.brefText(net))))
  }

  lemma {:induction false} FindRow(rows: seq<Row>, r: Row)
    requires UniquePaths(rows) && r in rows
    ensures Find(rows, r.path) == Some(r)
  {
    if rows[0] == r {
    } else {
      assert r in rows[1..];
      var i :| 0 <= i < |rows| && rows[i] == r;
      assert rows[0].path != rows[i].path;
      FindRow(rows[1..], r);
    }
  }

  lemma {:induction false} FindNone(rows: seq<Row>, path: string)
    requires forall r | r in rows :: r.path != path
    ensures Find(rows, path) == None
  {
    if rows == [] {
    } else {
      assert rows[0] in rows;
      FindNone(rows[1..], path);
    }
  }

  /** A listed row resolves directly. */
  lemma DirectResolves(db: Db, includeIndex: bool, net: Bid, l: Listed)
    requires Resolvable(db, includeIndex) && l in NetListing(db, net, includeIndex)
    ensures l.path != "" && db.plain(l.path)
    ensures Resolve(db, net, l.path) == Some(l.bid)
  {
    var r := StoredRow(db, includeIndex, net, l);
    hide PlainJoins;
    FindRow(db.Rows(db.brefText(net)), r);
  }

  /** The row behind a listed path, as resolution sees it. */
  lemma StoredRow(db: Db, includeIndex: bool, net: Bid, l: Listed) returns (r: Row)
    requires Covered(db) && l in NetListing(db, net, includeIndex)
    ensures r in db.Rows(db.brefText(net)) && r.path == l.path != "" && r.target == Some(l.bid)
  {
    var rows := db.Rows(db.bidText(net));
    ListedRow(rows, includeIndex, l);
    r :| r in rows && r.path == l.path != "" && r.target == Some(l.bid);
  }

  lemma SlashAt(dir: string, rest: string)
    requires '/' !in dir
    ensures FirstSlash(dir + "/" + rest) == |dir|
    ensures (dir + "/" + rest)[..|dir|] == dir && (dir + "/" + rest)[|dir| + 1..] == rest
  {
    var p := dir + "/" + rest;
    assert forall i | 0 <= i < |dir| :: p[i] == dir[i] && dir[i] in dir;
    assert p[|dir|] == '/';
  }

  /** A plain path below an expandable directory resolves through it. */
  lemma JoinedResolves(db: Db, includeIndex: bool, net: Bid, l: Listed, rest: string)
    requires Resolvable(db, includeIndex) && l in NetListing(db, net, includeIndex)
    requires db.isDir(l.path) && NetListing(db, l.bid, includeIndex) != [] && db.plain(rest)
    ensures db.plain(db.join(l.path, rest))
    ensures Resolve(db, net, db.join(l.path, rest)) == Resolve(db, l.bid, rest)
  {
    var rows := db.Rows(db.brefText(net));
    var r := StoredRow(db, includeIndex, net, l);
    assert Expandable(db, includeIndex, r);
    assert UniquePaths(rows) && Unshadowed(db, includeIndex, rows) && '/' !in l.path;
    var p := l.path + "/" + rest;
    assert db.join(l.path, rest) == p && db.plain(p);
    hide Resolvable, Expandable, NetListing;
    assert r.path + "/" <= p;
    FindNone(rows, p);
    FindRow(rows, r);
    hide Find, UniquePaths, Unshadowed;
    SlashAt(l.path, rest);
    hide FirstSlash;
  }

  /** Round trip: every path that enumeration lists resolves back to the id it was listed with. */
  lemma {:induction false} ListedResolves(db: Db, net: Bid, includeIndex: bool, processed: set<Bid>, l: Listed)
    requires SelfFree(db, includeIndex, net) && Resolvable(db, includeIndex)
    requires l in AllPaths(db, net, includeIndex, processed)
    ensures db.plain(l.path)
    ensures Resolve(db, net, l.path) == Some(l.bid)
    decreases Targets(db) + {net} - processed
  {
    var i := InBlock(db, net, includeIndex, processed, |NetListing(db, net, includeIndex)|, l);
    hide Resolve, Resolvable, AllPaths, Targets, NewNets, SelfFree, Expanded;
    var rows := NetListing(db, net, includeIndex);
    assert rows[i] in rows;
    DirectResolves(db, includeIndex, net, rows[i]);
    if IsFirst(db, rows, processed, i) {
      var n := rows[i].bid;
      var handed := Handed(db, net, rows, processed, n);
      assert n in NewNets(db, rows, processed) by { FirstIsNew(db, rows, processed, i); }
      NewNetIsCallable(db, net, includeIndex, processed, n);
      FirstBlock(db, net, includeIndex, processed, i);
      var sub := AllPaths(db, n, includeIndex, handed);
      if sub != [] {
        var j :| 0 <= j < |sub| && l == Joined(db, rows[i].path, sub)[j];
        ListedResolves(db, n, includeIndex, handed, sub[j]);
        SubListed(db, n, includeIndex, handed);
        JoinedResolves(db, includeIndex, net, rows[i], sub[j].path);
      }
    } else {
      NotFirstBlock(db, net, includeIndex, processed, i);
    }
  }

  lemma FirstIsNew(db: Db, rows: seq<Listed>, processed: set<Bid>, i: nat)
    requires i < |rows| && IsFirst(db, rows, processed, i)
    ensures rows[i].bid in NewNets(db, rows, processed)
  {
  }

  lemma SubListed(db: Db, net: Bid, includeIndex: bool, processed: set<Bid>)
    requires SelfFree(db, includeIndex, net) && AllPaths(db, net, includeIndex, processed) != []
    ensures NetListing(db, net, includeIndex) != []
  {
  }

  lemma {:induction false} InBlockOf(db: Db, net: Bid, includeIndex: bool, processed: set<Bid>, k: nat,
      l: Listed) returns (i: nat)
    requires SelfFree(db, includeIndex, net) && net !in processed && k <= |NetListing(db, net, includeIndex)|
    requires l in Expanded(db, net, includeIndex, processed, k)
    ensures i < k && l in Block(db, net, includeIndex, processed, i)
  {
    hide NetListing, Block, SelfFree, Targets;
    if l in Block(db, net, includeIndex, processed, k - 1) {
      i := k - 1;
    } else {
      i := InBlockOf(db, net, includeIndex, processed, k - 1, l);
    }
  }

  lemma InBlock(db: Db, net: Bid, includeIndex: bool, processed: set<Bid>, k: nat, l: Listed) returns (i: nat)
    requires SelfFree(db, includeIndex, net) && k == |NetListing(db, net, includeIndex)|
    requires l in AllPaths(db, net, includeIndex, processed)
    ensures net !in processed && i < k && l in Block(db, net, includeIndex, processed, i)
  {
    AllPathsIs(db, net, includeIndex, processed);
    hide AllPaths, Expanded, NetListing, SelfFree;
    i := InBlockOf(db, net, includeIndex, processed, k, l);
  }

  /** A path with a row of its own is that row's target. */
  lemma RowResolves(db: Db, net: Bid, r: Row)
    requires UniquePaths(db.Rows(db.brefText(net))) && r in db.Rows(db.brefText(net))
    ensures Resolve(db, net, r.path) == r.target
  {
    FindRow(db.Rows(db.brefText(net)), r);
  }

  /** Otherwise, if its first segment has a row with a target, the rest is resolved there. */
  lemma SegmentResolves(db: Db, net: Bid, path: string, i: nat, r: Row)
    requires UniquePaths(db.Rows(db.brefText(net))) && forall q | q in db.Rows(db.brefText(net)) :: q.path != path
    requires i < |path| && path[i] == '/' && '/' !in path[..i]
    requires r in db.Rows(db.brefText(net)) && r.path == path[..i]
    ensures Resolve(db, net, path)
         == if r.target.Some? then Resolve(db, r.target.value, path[i + 1..]) else None
  {
    var rows := db.Rows(db.brefText(net));
    FindNone(rows, path);
    FindRow(rows, r);
    SlashIsFirst(path, i);
    hide Find, FirstSlash, UniquePaths;
  }

  /** A path without a row, whose first segment has none either, is nobody's. */
  lemma NothingResolves(db: Db, net: Bid, path: string)
    requires forall q | q in db.Rows(db.brefText(net)) :: q.path != path
    requires forall i | 0 <= i < |path| && path[i] == '/' && '/' !in path[..i] ::
               forall q | q in db.Rows(db.brefText(net)) :: q.path != path[..i]
    ensures Resolve(db, net, path) == None
  {
    var rows, slash := db.Rows(db.brefText(net)), FirstSlash(path);
    FindNone(rows, path);
    if slash < |path| {
      assert path[slash] == '/' && forall j | 0 <= j < slash :: path[..slash][j] != '/';
      FindNone(rows, path[..slash]);
    }
  }

  lemma SlashIsFirst(path: string, i: nat)
    requires i < |path| && path[i] == '/' && '/' !in path[..i]
    ensures FirstSlash(path) == i
  {
    forall j | 0 <= j < i ensures path[j] != '/' {
      assert path[..i][j] in path[..i];
    }
  }

  // ------------------------------------------------------------------ what transactions write

  /** Path events as a transaction stores them: `net` is the text of a six-byte Bref. */
  datatype PathEvent =
    | PathWritten(net: string, path: string, target: Bid, gateway: bool)   // PathAdded and PathUpdate
    | PathsRemoved(net: string, paths: seq<string>)

  const BREF_TEXT := 12  // two hex digits a byte
  const BID_TEXT := 36   // a hyphenated UUID

  function Without(rows: seq<Row>, paths: seq<string>): seq<Row> {
    if rows == [] then []
    else Without(rows[..|rows| - 1], paths) + (if rows[|rows| - 1].path in paths then [] else [rows[|rows| - 1]])
  }

  /** INSERT OR REPLACE, and DELETE by path. */
  function Stored(table: map<string, seq<Row>>, ev: PathEvent): map<string, seq<Row>> {
    var rows := if ev.net in table then table[ev.net] else [];
    match ev
    case PathWritten(net, path, target, gateway) => table[net := Without(rows, [path]) + [Row(path, Some(target),
        gateway)]]
    case PathsRemoved(net, paths) => table[net := Without(rows, paths)]
  }

  function AllStored(events: seq<PathEvent>): map<string, seq<Row>> {
    if events == [] then map[] else Stored(AllStored(events[..|events| - 1]), events[|events| - 1])
  }

  lemma {:induction false} WithoutMembers(rows: seq<Row>, paths: seq<string>, r: Row)
    ensures r in Without(rows, paths) <==> r in rows && r.path !in paths
  {
    if rows == [] {
    } else {
      assert rows == rows[..|rows| - 1] + [rows[|rows| - 1]];
      WithoutMembers(rows[..|rows| - 1], paths, r);
    }
  }

  lemma {:induction false} WithoutUnique(rows: seq<Row>, paths: seq<string>)
    requires UniquePaths(rows)
    ensures UniquePaths(Without(rows, paths))
  {
    if rows == [] {
    } else {
      WithoutUnique(rows[..|rows| - 1], paths);
      var kept := Without(rows[..|rows| - 1], paths);
      forall i | 0 <= i < |kept| ensures kept[i].path != rows[|rows| - 1].path {
        WithoutMembers(rows[..|rows| - 1], paths, kept[i]);
      }
    }
  }

  lemma AppendUnique(rows: seq<Row>, row: Row)
    requires UniquePaths(rows) && forall r | r in rows :: r.path != row.path
    ensures UniquePaths(rows + [row])
  {
    assert forall i | 0 <= i < |rows| :: rows[i] in rows;
  }

  lemma StoredUnique(table: map<string, seq<Row>>, ev: PathEvent)
    requires forall net | net in table :: UniquePaths(table[net])
    ensures UniquePaths(Stored(table, ev)[ev.net])
  {
    var rows := if ev.net in table then table[ev.net] else [];
    var paths := if ev.PathWritten? then [ev.path] else ev.paths;
    WithoutUnique(rows, paths);
    var kept := Without(rows, paths);
    hide Without;
    if ev.PathWritten? {
      forall r | r in kept ensures r.path != ev.path {
        WithoutMembers(rows, paths, r);
      }
      AppendUnique(kept, Row(ev.path, Some(ev.target), ev.gateway));
    }
  }

  /** Stored rows keep their paths unique per network, and are filed under Bref texts only. */
  lemma {:induction false} StoredTable(events: seq<PathEvent>)
    requires forall ev | ev in events :: |ev.net| == BREF_TEXT
    ensures forall net | net in AllStored(events) :: UniquePaths(AllStored(events)[net]) && |net| == BREF_TEXT
  {
    hide UniquePaths, Without;
    if events == [] {
    } else {
      StoredTable(events[..|events| - 1]);
      StoredUnique(AllStored(events[..|events| - 1]), events[|events| - 1]);
    }
  }

  /** The row is in the table, under the network text. */
  predicate Has(table: map<string, seq<Row>>, net: string, r: Row) {
    net in table && r in table[net]
  }

  /** A written path replaces the row of that path in its network; removed paths lose theirs; nothing else changes. */
  lemma StoredRows(events: seq<PathEvent>, ev: PathEvent, net: string, r: Row)
    ensures var before, after := AllStored(events), AllStored(events + [ev]);
            Has(after, net, r) <==>
            if net != ev.net then Has(before, net, r)
            else match ev
              case PathWritten(_, path, target, gateway) =>
                r == Row(path, Some(target), gateway) || (Has(before, net, r) && r.path != path)
              case PathsRemoved(_, paths) => Has(before, net, r) && r.path !in paths
  {
    assert (events + [ev])[..|events|] == events;
    var table := AllStored(events);
    var rows: seq<Row> := if ev.net in table then table[ev.net] else [];
    match ev
    case PathWritten(_, path, _, _) => WithoutMembers(rows, [path], r);
    case PathsRemoved(_, paths) => WithoutMembers(rows, paths, r);
  }

  /** The table as path events build it, read with some texts for ids. */
  ghost predicate IsStored(db: Db, events: seq<PathEvent>) {
    && db.table == AllStored(events)
    && (forall ev | ev in events :: |ev.net| == BREF_TEXT)
    && forall b :: |db.bidText(b)| == BID_TEXT
  }

  /** Enumeration keyed the way the rows are stored. */
  function KeyedByBref(db: Db): Db {
    db.(bidText := db.brefText)
  }

  /**
   Enumeration asks for rows under the network's Bid text, which no transaction writes: on any
   table built by path events it finds nothing, for every network.
   */
  lemma StoredPathsAreNotListed(db: Db, events: seq<PathEvent>, net: Bid, includeIndex: bool, processed: set<Bid>)
    requires IsStored(db, events)
    ensures SelfFree(db, includeIndex, net) && AllPaths(db, net, includeIndex, processed) == []
  {
    StoredTable(events);
    forall n ensures NetListing(db, n, includeIndex) == [] {
      assert |db.bidText(n)| == BID_TEXT;
      assert db.Rows(db.bidText(n)) == [];
    }
    hide Below, NetListing;
    AllPathsIs(db, net, includeIndex, processed);
  }

  /** The expansion lists something exactly when the network has a row to list. */
  lemma {:induction false} ExpandedIsEmpty(db: Db, net: Bid, includeIndex: bool, processed: set<Bid>, k: nat)
    requires SelfFree(db, includeIndex, net) && net !in processed && k <= |NetListing(db, net, includeIndex)|
    ensures Expanded(db, net, includeIndex, processed, k) == [] <==> k == 0
  {
    if k == 0 {
    } else {
      hide NetListing, SelfFree, IsFirst, Targets;
      assert Block(db, net, includeIndex, processed, k - 1) != [];
    }
  }

  /**
   What the program enumerates on a stored table equals the expansion of the stored rows exactly when
   the network has no row to list.
   */
  lemma EnumerationIsExpansionIff(db: Db, events: seq<PathEvent>, net: Bid, includeIndex: bool)
    requires IsStored(db, events) && SelfFree(KeyedByBref(db), includeIndex, net)
    ensures SelfFree(db, includeIndex, net)
    ensures AllPaths(db, net, includeIndex, {}) == AllPaths(KeyedByBref(db), net, includeIndex, {})
            <==> NetListing(KeyedByBref(db), net, includeIndex) == []
  {
    StoredPathsAreNotListed(db, events, net, includeIndex, {});
    hide IsStored, NetListing, SelfFree, AllPaths, Expanded;
    var keyed := KeyedByBref(db);
    AllPathsIs(keyed, net, includeIndex, {});
    ExpandedIsEmpty(keyed, net, includeIndex, {}, |NetListing(keyed, net, includeIndex)|);
  }

  /** What one path event stores: network 1, under its Bref text, has the path `a`. */
  function OnePath(): (events: seq<PathEvent>) {
    [PathWritten("0123456789ab", "a", 1, false)]
  }

  function OnePathDb(): Db {
    Db(AllStored(OnePath()), b => "00000000-0000-0000-0000-0123456789ab", b => "0123456789ab", p => false,
      (dir, rest) => dir, p => true)
  }

  /** It is not enumerated, though it is there. */
  lemma StoredPathIsMissed()
    ensures IsStored(OnePathDb(), OnePath())
    ensures AllPaths(OnePathDb(), 1, true, {}) == []
    ensures NetListing(KeyedByBref(OnePathDb()), 1, true) == [Listed("a", 1)]
    ensures SelfFree(KeyedByBref(OnePathDb()), true, 1)
    ensures AllPaths(KeyedByBref(OnePathDb()), 1, true, {}) != []
  {
    var db, net, row := OnePathDb(), "0123456789ab", Row("a", Some(1), false);
    assert OnePath()[..0] == [];
    assert AllStored(OnePath()) == Stored(map[], PathWritten(net, "a", 1, false));
    assert Without([], ["a"]) + [row] == [row];
    assert AllStored(OnePath()) == map[net := [row]];
    assert [row][..0] == [];
    assert Listing([], true) == [];
    assert db.Rows(net) == [row];
    StoredPathsAreNotListed(db, OnePath(), 1, true, {});
    EnumerationIsExpansionIff(db, OnePath(), 1, true);
  }

  /** Round trip on tables that path events built, enumerated the way their rows are keyed. */
  lemma StoredRoundTrip(db: Db, events: seq<PathEvent>, net: Bid, includeIndex: bool, l: Listed)
    requires IsStored(db, events) && SelfFree(KeyedByBref(db), includeIndex, net)
    requires PlainJoins(db) && PlainRows(KeyedByBref(db), includeIndex)
    requires forall n {:trigger db.brefText(n)} ::
               Unshadowed(KeyedByBref(db), includeIndex, db.Rows(db.brefText(n)))
    requires l in AllPaths(KeyedByBref(db), net, includeIndex, {})
    ensures Resolve(db, net, l.path) == Some(l.bid)
  {
    StoredResolvable(db, events, includeIndex);
    hide AllPaths, SelfFree, IsStored, PlainJoins, PlainRows, Unshadowed, Resolvable;
    ListedResolves(KeyedByBref(db), net, includeIndex, {}, l);
    SameResolution(db, net, l.path);
  }

  lemma StoredResolvable(db: Db, events: seq<PathEvent>, includeIndex: bool)
    requires IsStored(db, events) && PlainJoins(db) && PlainRows(KeyedByBref(db), includeIndex)
    requires forall n {:trigger db.brefText(n)} ::
               Unshadowed(KeyedByBref(db), includeIndex, db.Rows(db.brefText(n)))
    ensures Resolvable(KeyedByBref(db), includeIndex)
  {
    StoredTable(events);
    hide AllStored, PlainRows, Unshadowed, UniquePaths;
    var keyed := KeyedByBref(db);
    assert UniquePaths([]) by { NoRows(); }
    assert PlainJoins(keyed);
    forall net
      ensures UniquePaths(keyed.Rows(keyed.brefText(net)))
      ensures Unshadowed(keyed, includeIndex, keyed.Rows(keyed.brefText(net)))
    {
      assert keyed.Rows(keyed.brefText(net)) == db.Rows(db.brefText(net));
    }
  }

  lemma NoRows()
    ensures UniquePaths([])
  {
  }

  /** Resolution never looks at the Bid texts. */
  lemma {:induction false} SameResolution(db: Db, net: Bid, path: string)
    ensures Resolve(KeyedByBref(db), net, path) == Resolve(db, net, path)
    decreases |path|
  {
    var rows := db.Rows(db.brefText(net));
    var slash := FirstSlash(path);
    hide Find, FirstSlash;
    if Find(rows, path).None? && slash < |path| {
      match Find(rows, path[..slash])
      case Some(Row(_, Some(sub), _)) => SameResolution(db, sub, path[slash + 1..]);
      case _ =>
    }
  }
}
