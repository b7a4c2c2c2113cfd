/**
 What a plan of the fan-out planner has to be, said of the index entries and the limits alone
 (lambdas/plan_split.py).
 */
module PlanRules {
  import opened Util
  import opened Lpt

  /** One entry of the master index, with the sizes `_enrich` settles on. */
  datatype Entry = Entry(schema: string, table: string, pkMode: string, pkColumns: seq<string>,
                         rows: nat, numFiles: nat, totalBytes: nat) {
    function Label(): string { schema + "." + table }
    predicate Composite() { pkMode == "composite" || |pkColumns| > 1 }
  }

  datatype Limits = Limits(bigRows: int, fanoutFiles: int, bigBytes: int, maxGroups: int,
                           maxCompositeForks: int, maxBigCdcForks: int,
                           connBudget: int, minWriters: int, maxWriters: int, mapMaxConc: int)

  datatype Kind = Big | Small | CompositeFork

  /** One lane of the load/validate fan-out: its manifest is exactly `tables`. */
  datatype Group = Group(index: nat, kind: Kind, tables: seq<Entry>)

  datatype ForkKind = Ck | Bg

  /** A fork: a table with its own CDC job, scoped to the manifest `tables`. */
  datatype Fork = Fork(kind: ForkKind, table: Entry, tables: seq<Entry>)

  datatype Plan = Plan(groups: seq<Group>, forks: seq<Fork>, overflow: seq<string>, owners: map<string, string>,
                       loadersInFlight: int, writersPerLoader: int)

  /** The task's names, and the two parts of a table's slug. */
  datatype Naming = Naming(project: string, suffix: string, readable: string -> string, hash: string -> string)

  datatype PlanError = NoTables | TooManyComposites | NameTooLong

  // ----- tables and rows of groups ---------------------------------------------------------

  function Weights(s: seq<Entry>): (w: seq<nat>)
    ensures |w| == |s| && forall i :: 0 <= i < |s| ==> w[i] == s[i].rows
  {
    seq(|s|, i requires 0 <= i < |s| => s[i].rows)
  }

  function Rows(s: seq<Entry>): nat { Sum(Weights(s)) }

  /** The tables of the first `n` groups, one after the other. */
  function FlatTo(groups: seq<seq<Entry>>, n: nat): seq<Entry>
    requires n <= |groups|
  {
    if n == 0 then [] else FlatTo(groups, n - 1) + groups[n - 1]
  }

  function Flat(groups: seq<seq<Entry>>): seq<Entry> { FlatTo(groups, |groups|) }

  function Manifests(groups: seq<Group>): seq<seq<Entry>> {
    seq(|groups|, i requires 0 <= i < |groups| => groups[i].tables)
  }

  /** Every table of the plan's groups. */
  function Tables(groups: seq<Group>): seq<Entry> { Flat(Manifests(groups)) }

  // ----- what a table is -------------------------------------------------------------------

  predicate CompositeTable(e: Entry) { |e.pkColumns| > 1 || e.pkMode == "composite" }

  /** Not composite, and over one of the three thresholds. */
  predicate BigTable(lim: Limits, e: Entry) {
    && |e.pkColumns| <= 1 && e.pkMode != "composite"
    && (e.rows >= lim.bigRows || e.numFiles >= lim.fanoutFiles || e.totalBytes >= lim.bigBytes)
  }

  predicate SmallTable(lim: Limits, e: Entry) {
    && |e.pkColumns| <= 1 && e.pkMode != "composite"
    && e.rows < lim.bigRows && e.numFiles < lim.fanoutFiles && e.totalBytes < lim.bigBytes
  }

  function CountComposite(entries: seq<Entry>): nat {
    |set i | 0 <= i < |entries| && CompositeTable(entries[i])|
  }

  function CountBig(lim: Limits, entries: seq<Entry>): nat {
    |set i | 0 <= i < |entries| && BigTable(lim, entries[i])|
  }

  function SmallTables(lim: Limits, entries: seq<Entry>): seq<Entry> {
    if entries == [] then []
    else
      var rest, e := SmallTables(lim, entries[..|entries| - 1]), entries[|entries| - 1];
      if SmallTable(lim, e) then rest + [e] else rest
  }

  // ----- what a plan is --------------------------------------------------------------------

  /** A lane of its own for each composite and each big table, small tables share lanes. */
  predicate LaneOk(lim: Limits, g: Group) {
    match g.kind
    case Big => |g.tables| == 1 && BigTable(lim, g.tables[0])
    case CompositeFork => |g.tables| == 1 && CompositeTable(g.tables[0])
    case Small => g.tables != [] && forall i :: 0 <= i < |g.tables| ==> SmallTable(lim, g.tables[i])
  }

  /** Every entry is in exactly one lane, and the lanes are numbered. */
  ghost predicate LanesOk(entries: seq<Entry>, lim: Limits, groups: seq<Group>) {
    && multiset(Tables(groups)) == multiset(entries)
    && forall i :: 0 <= i < |groups| ==> groups[i].index == i && LaneOk(lim, groups[i])
  }

  /** Some way to spread the small tables over `n` groups, none with more than `fullest` rows. */
  ghost predicate Spread(other: seq<seq<Entry>>, small: seq<Entry>, n: nat, fullest: nat) {
    |other| == n && multiset(Flat(other)) == multiset(small) && forall b :: 0 <= b < n ==> Rows(other[b]) <= fullest
  }

  /** No spread over `n` groups has a fullest group below this one by more than the factor 4/3 - 1/(3n). */
  ghost predicate NearOptimal(tables: seq<Entry>, small: seq<Entry>, n: nat) {
    forall other, fullest :: Spread(other, small, n, fullest) ==> 3 * n * Rows(tables) <= (4 * n - 1) * fullest
  }

  /** The small lanes: what the big tables leave of `max_groups`, at least one, are used as far as there
      are tables, and none is much fuller than the fullest of any other spread over as many. */
  ghost predicate SmallLanesOk(entries: seq<Entry>, lim: Limits, groups: seq<Group>) {
    var small, n := SmallTables(lim, entries), Max(1, lim.maxGroups - CountBig(lim, entries));
    && (forall i :: 0 <= i < |groups| && groups[i].kind.Small? ==> NearOptimal(groups[i].tables, small, n))
    && ((forall t :: t in small ==> t.rows > 0) ==>
          |set i | 0 <= i < |groups| && groups[i].kind.Small?| == Min(n, |small|))
    && |set i | 0 <= i < |groups| && groups[i].kind.Small?| <= n
  }

  /** The forks: every composite table, and the first big ones by label, as many as the cap allows; the
      other big tables are the overflow. */
  ghost predicate ForksMean(entries: seq<Entry>, lim: Limits, forks: seq<Fork>, overflow: seq<string>) {
    && (forall i :: 0 <= i < |forks| ==>
          && forks[i].tables == [forks[i].table] && forks[i].table in entries
          && if forks[i].kind.Ck? then CompositeTable(forks[i].table) else BigTable(lim, forks[i].table))
    && (forall i, j :: 0 <= i < j < |forks| ==> forks[i].table.Label() != forks[j].table.Label())
    && |set i | 0 <= i < |forks| && forks[i].kind.Bg?| == Max(0, Min(lim.maxBigCdcForks, CountBig(lim, entries)))
    && (forall e :: e in entries && CompositeTable(e) ==> exists i :: 0 <= i < |forks| && forks[i].table == e)
    && (forall e :: e in entries && BigTable(lim, e) ==>
          (e.Label() in overflow <==> forall i :: 0 <= i < |forks| ==> forks[i].table != e))
    && (forall i, e :: 0 <= i < |forks| && forks[i].kind.Bg? && e in entries && e.Label() in overflow ==>
          Before(forks[i].table.Label(), e.Label()))
    && (forall x :: x in overflow ==> exists e :: e in entries && BigTable(lim, e) && e.Label() == x)
  }

  // ----- connections -----------------------------------------------------------------------

  /** As many loaders at once as there are groups, the map's cap and the connection budget allow at the
      minimum of writers each; then as many writers each as the rest of the budget and their cap allow;
      but never less than one loader, nor than the minimum of writers. */
  predicate Paced(lim: Limits, groupCount: nat, loaders: int, writers: int) {
    var each := Max(1, lim.minWriters);
    && 1 <= loaders && lim.minWriters <= writers
    && (loaders == 1 || (loaders <= groupCount && loaders <= lim.mapMaxConc && loaders * each <= lim.connBudget))
    && (loaders >= groupCount || loaders >= lim.mapMaxConc || (loaders + 1) * each > lim.connBudget)
    && (writers == lim.minWriters || (writers <= lim.maxWriters && writers * loaders <= lim.connBudget))
    && (writers >= lim.maxWriters || (writers + 1) * loaders > lim.connBudget)
  }

  // ----- owners and job names --------------------------------------------------------------

  predicate LabelOf(forks: seq<Fork>, x: string) {
    exists i :: 0 <= i < |forks| && forks[i].table.Label() == x
  }

  /** The tables with a CDC job of their own: a composite table's is called ck-, a big table's bg-, and
      its slug. */
  ghost predicate OwnersMean(forks: seq<Fork>, slug: string -> string, owners: map<string, string>) {
    && (forall x :: x in owners <==> LabelOf(forks, x))
    && (forall i :: 0 <= i < |forks| && forks[i].table.Label() in owners ==>
          owners[forks[i].table.Label()]
          == match forks[i].kind
             case Ck => "ck-" + slug(forks[i].table.Label())
             case Bg => "bg-" + slug(forks[i].table.Label()))
  }

  /** The jobs of a fork: a big table's has its changes applied; a composite table is loaded and
      validated on its own as well, by the big job when it is over a threshold. */
  predicate JobRole(lim: Limits, f: Fork, role: string) {
    || role == "cdc"
    || (f.kind.Ck? && role == "validate")
    || (f.kind.Ck? && role == "load-big" && OverThreshold(lim, f.table))
    || (f.kind.Ck? && role == "load" && !OverThreshold(lim, f.table))
  }

  predicate OverThreshold(lim: Limits, e: Entry) {
    lim.bigRows <= e.rows || lim.fanoutFiles <= e.numFiles || lim.bigBytes <= e.totalBytes
  }

  /** The name of a fork's job: the task, the kind, the table's readable name or the beginning of it, its
      hash and the role. */
  predicate JobName(nm: Naming, f: Fork, role: string, part: string, name: string) {
    name == nm.project + "-" + nm.suffix + (match f.kind case Ck => "-ck-" case Bg => "-bg-")
            + part + "-" + nm.hash(f.table.Label()) + "-" + role
  }

  /** How long that name is without the readable part. */
  function NameFrame(nm: Naming, f: Fork, role: string): nat {
    |nm.project| + 1 + |nm.suffix| + 4 + 1 + |nm.hash(f.table.Label())| + 1 + |role|
  }

  /** Glue's limit of 255 characters leaves room for one character of a readable name. */
  predicate NameFits(nm: Naming, f: Fork, role: string) {
    NameFrame(nm, f, role) + Min(1, |nm.readable(f.table.Label())|) <= 255
  }

  /** The first `k` characters of the room, without the dashes behind them, and "t" if that is nothing. */
  predicate CutAt(readable: string, room: nat, k: nat, part: string) {
    && k <= room <= |readable| && (forall i :: k <= i < room ==> readable[i] == '-')
    && if k == 0 then part == "t" else readable[k - 1] != '-' && part == readable[..k]
  }

  /** The readable part: all of it if the name keeps the limit, or as much as the limit leaves. */
  ghost predicate ReadablePart(readable: string, room: nat, part: string) {
    if |readable| <= room then part == readable else exists k :: CutAt(readable, room, k, part)
  }
}
