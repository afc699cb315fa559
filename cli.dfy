/**
 * The `lutris-coverup` command of cli.py: scan the Lutris game database for
 * games whose cover, banner or icon file is missing, then hand each list to
 * its fetcher. The database query is an `Option` of rows (`None` when the
 * query fails) and the file system is the `Disk` of the fetch loops.
 */
module Cli {
  import opened Wrappers
  import opened Enums
  import opened Paths
  import opened Images
  import opened Fetch

  /** The three asset directories. */
  datatype Dirs = Dirs(coverArt: Path, banners: Path, icons: Path)

  /** `<lutris>/coverart`, `<lutris>/banners` and the icon directory. */
  function DirsOf(lutris: Path, icons: Path): (d: Dirs)
    ensures d.coverArt == Path(lutris.parts + ["coverart"])
    ensures d.banners == Path(lutris.parts + ["banners"])
    ensures d.icons == icons
  {
    ComponentsOfComponent("coverart");
    ComponentsOfComponent("banners");
    Dirs(Join(lutris, "coverart"), Join(lutris, "banners"), icons)
  }

  /** The directory of one kind of asset. */
  function DirOf(d: Dirs, kind: AssetKind): Path
  {
    if kind == Covers then d.coverArt else if kind == Banners then d.banners else d.icons
  }

  /** The three lists of slugs whose asset file is missing. */
  datatype Missing = Missing(covers: seq<string>, banners: seq<string>, icons: seq<string>)

  function ListOf(m: Missing, kind: AssetKind): seq<string>
  {
    if kind == Covers then m.covers else if kind == Banners then m.banners else m.icons
  }

  /** Why the scan gave up: the query failed, a slug was NULL, or a path had no name. */
  datatype ScanError = QueryFailed | NullSlug | BadPath(path: PathError)

  // ---------------------------------------------------------------- the scan

  /**
   * The check of one kind for one slug: when the target selects the kind,
   * build the asset path (which may raise) and note the slug when no file is
   * there.
   */
  function Mark(kind: AssetKind, target: AssetType, dir: Path, slug: string, existing: set<Path>, list: seq<string>)
    : Result<seq<string>, ScanError>
  {
    if !Includes(target, kind) then Ok(list)
    else match AssetPath(kind, dir, slug)
      case Err(e) => Err(BadPath(e))
      case Ok(p) => Ok(if p in existing then list else list + [slug])
  }

  /** One row of `SELECT slug FROM games`: covers, then banners, then icons. */
  function ScanRow(target: AssetType, dirs: Dirs, existing: set<Path>, m: Missing, row: Option<string>)
    : Result<Missing, ScanError>
  {
    match row
    case None => Err(NullSlug)
    case Some(slug) =>
      match Mark(Covers, target, dirs.coverArt, slug, existing, m.covers)
      case Err(e) => Err(e)
      case Ok(c) =>
        match Mark(Banners, target, dirs.banners, slug, existing, m.banners)
        case Err(e) => Err(e)
        case Ok(b) =>
          match Mark(Icons, target, dirs.icons, slug, existing, m.icons)
          case Err(e) => Err(e)
          case Ok(i) => Ok(Missing(c, b, i))
  }

  /** The rows in order; the first one that raises ends the scan. */
  function ScanRows(target: AssetType, dirs: Dirs, existing: set<Path>, rows: seq<Option<string>>)
    : Result<Missing, ScanError>
    decreases |rows|
  {
    if rows == [] then Ok(Missing([], [], []))
    else match ScanRows(target, dirs, existing, rows[..|rows| - 1])
      case Err(e) => Err(e)
      case Ok(m) => ScanRow(target, dirs, existing, m, rows[|rows| - 1])
  }

  /** The whole `try` block: the query, then the rows. */
  function ScanResult(target: AssetType, dirs: Dirs, db: Option<seq<Option<string>>>, existing: set<Path>)
    : Result<Missing, ScanError>
  {
    match db
    case None => Err(QueryFailed)
    case Some(rows) => ScanRows(target, dirs, existing, rows)
  }

  /** One kind's test in the scan loop: skipped unless the target selects the kind,
      otherwise the asset's path is built and the slug appended when no file is there. */
  method Check(kind: AssetKind, target: AssetType, dir: Path, slug: string, existing: set<Path>, list: seq<string>)
    returns (r: Result<seq<string>, ScanError>)
    ensures r == Mark(kind, target, dir, slug, existing, list)
  {
    if !Includes(target, kind) {
      return Ok(list);
    }
    var p := AssetPath(kind, dir, slug);
    if p.Err? {
      return Err(BadPath(p.error));
    }
    if p.value !in existing {
      return Ok(list + [slug]);
    }
    return Ok(list);
  }

  /**
   * The body of the scan loop for row `i`, the lists of the rows before it
   * being `m`: a NULL slug, then the three kinds in order.
   */
  method ScanOne(target: AssetType, dirs: Dirs, existing: set<Path>, rows: seq<Option<string>>, i: nat, m: Missing)
    returns (r: Result<Missing, ScanError>)
    requires i < |rows| && ScanRows(target, dirs, existing, rows[..i]) == Ok(m)
    ensures r == ScanRows(target, dirs, existing, rows[..i + 1])
  {
    ScanRowsSnoc(target, dirs, existing, rows, i);
    var row := rows[i];
    if row.None? {
      return Err(NullSlug);
    }
    var slug := row.value;
    var c := Check(Covers, target, dirs.coverArt, slug, existing, m.covers);
    if c.Err? {
      return Err(c.error);
    }
    var b := Check(Banners, target, dirs.banners, slug, existing, m.banners);
    if b.Err? {
      return Err(b.error);
    }
    var n := Check(Icons, target, dirs.icons, slug, existing, m.icons);
    if n.Err? {
      return Err(n.error);
    }
    return Ok(Missing(c.value, b.value, n.value));
  }

  /**
   * The scan loop of `cli`: for every row, and for each kind the target
   * selects, append the slug to that kind's list when `is_file()` is false
   * for its asset path. `existing` is the set of paths that are files.
   */
  method Scan(target: AssetType, dirs: Dirs, db: Option<seq<Option<string>>>, existing: set<Path>)
    returns (r: Result<Missing, ScanError>)
    ensures r == ScanResult(target, dirs, db, existing)
  {
    if db.None? {
      return Err(QueryFailed);
    }
    var rows := db.value;
    var m := Missing([], [], []);
    for i := 0 to |rows|
      invariant ScanRows(target, dirs, existing, rows[..i]) == Ok(m)
    {
      var next := ScanOne(target, dirs, existing, rows, i, m);
      if next.Err? {
        ScanRowsStops(target, dirs, existing, rows, i + 1);
        return Err(next.error);
      }
      m := next.value;
    }
    assert rows[..|rows|] == rows;
    return Ok(m);
  }

  /** One more row extends the scan of the rows before it. */
  lemma ScanRowsSnoc(target: AssetType, dirs: Dirs, existing: set<Path>, rows: seq<Option<string>>, i: nat)
    requires i < |rows|
    ensures ScanRows(target, dirs, existing, rows[..i]).Ok? ==>
      ScanRows(target, dirs, existing, rows[..i + 1])
        == ScanRow(target, dirs, existing, ScanRows(target, dirs, existing, rows[..i]).value, rows[i])
  {
    assert rows[..i + 1][..i] == rows[..i];
  }

  /** A scan that raised on the first `i` rows raises the same way on all of them. */
  lemma {:induction false} ScanRowsStops(target: AssetType, dirs: Dirs, existing: set<Path>, rows: seq<Option<string>>, i: nat)
    requires i <= |rows| && ScanRows(target, dirs, existing, rows[..i]).Err?
    ensures ScanRows(target, dirs, existing, rows) == ScanRows(target, dirs, existing, rows[..i])
    decreases |rows| - i
  {
    if i < |rows| {
      assert rows[..i + 1][..i] == rows[..i];
      ScanRowsStops(target, dirs, existing, rows, i + 1);
    } else {
      assert rows[..i] == rows;
    }
  }

  // ---------------------------------------------------------------- the notice

  /** The four "nothing to do" messages. */
  datatype Notice = NoMissingCovers | NoMissingBanners | NoMissingIcons | NoMissingAssets

  /** The `if`/`elif` chain after the scan: at most one message. */
  function NoticeFor(target: AssetType, m: Missing): Option<Notice>
  {
    if target == Covers && m.covers == [] then Some(NoMissingCovers)
    else if target == Banners && m.banners == [] then Some(NoMissingBanners)
    else if target == Icons && m.icons == [] then Some(NoMissingIcons)
    else if target == All && m.covers == [] && m.banners == [] && m.icons == [] then Some(NoMissingAssets)
    else None
  }

  /** The message that belongs to a target. */
  function NoticeOf(target: AssetType): Notice
  {
    match target
    case Covers => NoMissingCovers
    case Banners => NoMissingBanners
    case Icons => NoMissingIcons
    case All => NoMissingAssets
  }

  // ---------------------------------------------------------------- the fetchers

  /** The kinds a target selects, in the order `cli` calls their fetchers. */
  function Kinds(target: AssetType): (ks: seq<AssetKind>)
    ensures forall k: AssetKind :: k in ks <==> Includes(target, k)
  {
    if target == All then [Covers, Banners, Icons] else [target]
  }

  /** One fetcher call: its kind, its arguments and how its loop ended. */
  datatype Call = Call(kind: AssetKind, games: seq<string>, dir: Path, mode: ResizeMethod, status: Status, searched: nat)

  /** The resize method a fetcher receives: the icon fetcher takes none. */
  function ModeFor(kind: AssetKind, mode: ResizeMethod): ResizeMethod
  {
    if kind == Icons then NoResize else mode
  }

  /** The call of the fetcher for `kind`, with that kind's missing list and directory. */
  function CallOf(kind: AssetKind, mode: ResizeMethod, dirs: Dirs, m: Missing, cat: Catalog): Call
  {
    var r := RunFetch(kind, cat, DirOf(dirs, kind), ModeFor(kind, mode), ListOf(m, kind));
    Call(kind, ListOf(m, kind), DirOf(dirs, kind), ModeFor(kind, mode), r.status, r.searched)
  }

  /** The fetchers for `kinds` in order; an exception in one ends the command. */
  function CallsFrom(kinds: seq<AssetKind>, mode: ResizeMethod, dirs: Dirs, m: Missing, cat: Catalog): seq<Call>
    decreases |kinds|
  {
    if kinds == [] then []
    else
      var c := CallOf(kinds[0], mode, dirs, m, cat);
      [c] + (if c.status.Crashed? then [] else CallsFrom(kinds[1..], mode, dirs, m, cat))
  }

  /** The writes of one call. */
  function CallWrites(cat: Catalog, c: Call): seq<Write>
  {
    RunFetch(c.kind, cat, c.dir, c.mode, c.games).writes
  }

  /** The writes of a series of calls, in order. */
  function AllWrites(cat: Catalog, cs: seq<Call>): seq<Write>
    decreases |cs|
  {
    if cs == [] then [] else CallWrites(cat, cs[0]) + AllWrites(cat, cs[1..])
  }

  /** What a run of the command amounts to. */
  datatype Report =
    | Aborted(error: ScanError)                        // logged, and nothing is fetched
    | Ran(notice: Option<Notice>, calls: seq<Call>)

  /** The command as a function of its inputs and of the files present when it starts. */
  function CliSpec(target: AssetType, mode: ResizeMethod, dirs: Dirs, db: Option<seq<Option<string>>>,
                   cat: Catalog, existing: set<Path>): Report
  {
    match ScanResult(target, dirs, db, existing)
    case Err(e) => Aborted(e)
    case Ok(m) => Ran(NoticeFor(target, m), CallsFrom(Kinds(target), mode, dirs, m, cat))
  }

  /** The writes a report stands for. */
  function ReportWrites(cat: Catalog, r: Report): seq<Write>
  {
    if r.Aborted? then [] else AllWrites(cat, r.calls)
  }

  /** The call of the fetcher for one kind, on that kind's list and directory. */
  method Dispatch(kind: AssetKind, mode: ResizeMethod, dirs: Dirs, m: Missing, cat: Catalog, disk: Disk)
    returns (c: Call)
    modifies disk
    ensures c == CallOf(kind, mode, dirs, m, cat)
    ensures disk.writes == old(disk.writes) + CallWrites(cat, c)
    ensures disk.files == ApplyWrites(old(disk.files), CallWrites(cat, c))
  {
    var games := ListOf(m, kind);
    var dir := DirOf(dirs, kind);
    var status: Status, searches: nat;
    if kind == Covers {
      status, searches := FetchCoverArt(cat, games, dir, mode, disk);
    } else if kind == Banners {
      status, searches := FetchBanners(cat, games, dir, mode, disk);
    } else {
      status, searches := FetchIcons(cat, games, dir, disk);
    }
    c := Call(kind, games, dir, ModeFor(kind, mode), status, searches);
  }

  /** One of the three fetcher calls of `cli`, after the calls before it. */
  method Invoke(kind: AssetKind, mode: ResizeMethod, dirs: Dirs, m: Missing, cat: Catalog, disk: Disk,
                calls: seq<Call>, ghost start: seq<Write>, ghost files: map<Path, Image>)
    returns (after: seq<Call>, crashed: bool)
    requires disk.writes == start + AllWrites(cat, calls)
    requires disk.files == ApplyWrites(files, AllWrites(cat, calls))
    modifies disk
    ensures after == calls + [CallOf(kind, mode, dirs, m, cat)]
    ensures crashed == CallOf(kind, mode, dirs, m, cat).status.Crashed?
    ensures disk.writes == start + AllWrites(cat, after)
    ensures disk.files == ApplyWrites(files, AllWrites(cat, after))
  {
    var c := Dispatch(kind, mode, dirs, m, cat, disk);
    after := calls + [c];
    crashed := c.status.Crashed?;
    AllWritesSnoc(cat, calls, c);
    ApplyWritesAppend(files, AllWrites(cat, calls), CallWrites(cat, c));
    AppendAssoc(start, AllWrites(cat, calls), CallWrites(cat, c));
  }

  lemma AllWritesSnoc(cat: Catalog, calls: seq<Call>, c: Call)
    ensures AllWrites(cat, calls + [c]) == AllWrites(cat, calls) + CallWrites(cat, c)
  {
    AllWritesAppend(cat, calls, [c]);
    assert AllWrites(cat, [c]) == CallWrites(cat, c) + [];
  }

  /** The calls of `CallsFrom` for each target, written out in the order `FetchMissing` appends them. */
  lemma CallsOfTarget(target: AssetType, mode: ResizeMethod, dirs: Dirs, m: Missing, cat: Catalog)
    ensures target != All ==> CallsFrom(Kinds(target), mode, dirs, m, cat) == [] + [CallOf(target, mode, dirs, m, cat)]
    ensures target == All && CallOf(Covers, mode, dirs, m, cat).status.Crashed? ==>
      CallsFrom(Kinds(target), mode, dirs, m, cat) == [] + [CallOf(Covers, mode, dirs, m, cat)]
    ensures (target == All && !CallOf(Covers, mode, dirs, m, cat).status.Crashed?
      && CallOf(Banners, mode, dirs, m, cat).status.Crashed?) ==>
      CallsFrom(Kinds(target), mode, dirs, m, cat)
        == [] + [CallOf(Covers, mode, dirs, m, cat)] + [CallOf(Banners, mode, dirs, m, cat)]
    ensures (target == All && !CallOf(Covers, mode, dirs, m, cat).status.Crashed?
      && !CallOf(Banners, mode, dirs, m, cat).status.Crashed?) ==>
      CallsFrom(Kinds(target), mode, dirs, m, cat)
        == [] + [CallOf(Covers, mode, dirs, m, cat)] + [CallOf(Banners, mode, dirs, m, cat)] + [CallOf(Icons, mode, dirs, m, cat)]
  {
    if target == All {
      var ks := Kinds(target);
      assert ks[1..] == [Banners, Icons] && ks[1..][1..] == [Icons] && ks[1..][1..][1..] == [];
      var c2, c3 := CallOf(Banners, mode, dirs, m, cat), CallOf(Icons, mode, dirs, m, cat);
      assert CallsFrom([Icons], mode, dirs, m, cat) == [c3];
      assert CallsFrom([Banners, Icons], mode, dirs, m, cat) == [c2] + (if c2.status.Crashed? then [] else [c3]);
    } else {
      assert Kinds(target)[1..] == [];
    }
  }

  /**
   * `cli(api_key, resize, target, lutris_path, icon_path)`: scan, then call
   * the selected fetchers in the order covers, banners, icons. An exception
   * of the scan is logged and ends the command; one of a fetcher propagates,
   * so the later fetchers do not run.
   */
  method Run(target: AssetType, mode: ResizeMethod, lutris: Path, iconDir: Path,
             db: Option<seq<Option<string>>>, cat: Catalog, disk: Disk)
    returns (report: Report)
    modifies disk
    ensures report == CliSpec(target, mode, DirsOf(lutris, iconDir), db, cat, old(disk.files).Keys)
    ensures disk.writes == old(disk.writes) + ReportWrites(cat, report)
    ensures disk.files == ApplyWrites(old(disk.files), ReportWrites(cat, report))
  {
    var dirs := DirsOf(lutris, iconDir);
    var scanned := Scan(target, dirs, db, disk.files.Keys);
    if scanned.Err? {
      return Aborted(scanned.error);
    }
    var m := scanned.value;
    var notice := NoticeFor(target, m);
    var calls := FetchMissing(target, mode, dirs, m, cat, disk);
    return Ran(notice, calls);
  }

  /** The three guarded fetcher calls at the end of `cli`, in order. */
  method FetchMissing(target: AssetType, mode: ResizeMethod, dirs: Dirs, m: Missing, cat: Catalog, disk: Disk)
    returns (calls: seq<Call>)
    modifies disk
    ensures calls == CallsFrom(Kinds(target), mode, dirs, m, cat)
    ensures disk.writes == old(disk.writes) + AllWrites(cat, calls)
    ensures disk.files == ApplyWrites(old(disk.files), AllWrites(cat, calls))
  {
    calls := [];
    CallsOfTarget(target, mode, dirs, m, cat);
    var crashed: bool;
    if Includes(target, Covers) {
      calls, crashed := Invoke(Covers, mode, dirs, m, cat, disk, calls, old(disk.writes), old(disk.files));
      if crashed {
        return;
      }
    }
    if Includes(target, Banners) {
      calls, crashed := Invoke(Banners, mode, dirs, m, cat, disk, calls, old(disk.writes), old(disk.files));
      if crashed {
        return;
      }
    }
    if Includes(target, Icons) {
      calls, crashed := Invoke(Icons, mode, dirs, m, cat, disk, calls, old(disk.writes), old(disk.files));
    }
  }

  // ---------------------------------------------------------------- lemmas

  /** The slugs of the rows that are not NULL, in order. */
  function Slugs(rows: seq<Option<string>>): seq<string>
    decreases |rows|
  {
    if rows == [] then [] else (if rows[0].Some? then [rows[0].value] else []) + Slugs(rows[1..])
  }

  /** The reference list: the slugs whose asset path exists and holds no file, in order. */
  function MissingOf(kind: AssetKind, dir: Path, slugs: seq<string>, existing: set<Path>): seq<string>
    decreases |slugs|
  {
    if slugs == [] then []
    else
      var p := AssetPath(kind, dir, slugs[0]);
      (if p.Ok? && p.value !in existing then [slugs[0]] else []) + MissingOf(kind, dir, slugs[1..], existing)
  }

  /** A row the scan gets through: not NULL, and with an asset path for each selected kind. */
  predicate RowOk(target: AssetType, dirs: Dirs, row: Option<string>)
  {
    row.Some? && forall kind: AssetKind :: Includes(target, kind) ==> AssetPath(kind, DirOf(dirs, kind), row.value).Ok?
  }

  /** No selected kind lacks its file for any slug: the condition of the notices. */
  predicate NothingMissing(target: AssetType, dirs: Dirs, slugs: seq<string>, existing: set<Path>)
  {
    && (Includes(target, Covers) ==> AllPresent(Covers, dirs.coverArt, slugs, existing))
    && (Includes(target, Banners) ==> AllPresent(Banners, dirs.banners, slugs, existing))
    && (Includes(target, Icons) ==> AllPresent(Icons, dirs.icons, slugs, existing))
  }

  /** Every slug with an asset path of this kind has its file. */
  predicate AllPresent(kind: AssetKind, dir: Path, slugs: seq<string>, existing: set<Path>)
  {
    forall s :: s in slugs && AssetPath(kind, dir, s).Ok? ==> AssetPath(kind, dir, s).value in existing
  }

  /** Each list is the reference list of its kind when selected, and empty otherwise. */
  predicate ListsMatch(target: AssetType, dirs: Dirs, existing: set<Path>, slugs: seq<string>, m: Missing)
  {
    forall kind: AssetKind :: ListOf(m, kind) ==
      (if Includes(target, kind) then MissingOf(kind, DirOf(dirs, kind), slugs, existing) else [])
  }

  lemma {:induction false} AllWritesAppend(cat: Catalog, a: seq<Call>, b: seq<Call>)
    ensures AllWrites(cat, a + b) == AllWrites(cat, a) + AllWrites(cat, b)
    decreases |a|
  {
    if a == [] {
      assert a + b == b;
    } else {
      assert (a + b)[1..] == a[1..] + b;
      AllWritesAppend(cat, a[1..], b);
    }
  }

  lemma {:induction false} SlugsAppend(a: seq<Option<string>>, b: seq<Option<string>>)
    ensures Slugs(a + b) == Slugs(a) + Slugs(b)
    decreases |a|
  {
    if a == [] {
      assert a + b == b;
    } else {
      assert (a + b)[0] == a[0] && (a + b)[1..] == a[1..] + b;
      SlugsAppend(a[1..], b);
      AppendAssoc(if a[0].Some? then [a[0].value] else [], Slugs(a[1..]), Slugs(b));
    }
  }

  lemma {:induction false} MissingOfAppend(kind: AssetKind, dir: Path, a: seq<string>, b: seq<string>, existing: set<Path>)
    ensures MissingOf(kind, dir, a + b, existing) == MissingOf(kind, dir, a, existing) + MissingOf(kind, dir, b, existing)
    decreases |a|
  {
    if a == [] {
      assert a + b == b;
    } else {
      assert (a + b)[0] == a[0] && (a + b)[1..] == a[1..] + b;
      MissingOfAppend(kind, dir, a[1..], b, existing);
      var p := AssetPath(kind, dir, a[0]);
      AppendAssoc(if p.Ok? && p.value !in existing then [a[0]] else [],
                  MissingOf(kind, dir, a[1..], existing), MissingOf(kind, dir, b, existing));
    }
  }

  /** A slug is in the reference list exactly when its asset path exists and holds no file. */
  lemma {:induction false} MissingOfMembers(kind: AssetKind, dir: Path, slugs: seq<string>, existing: set<Path>, s: string)
    ensures s in MissingOf(kind, dir, slugs, existing) <==>
      s in slugs && AssetPath(kind, dir, s).Ok? && AssetPath(kind, dir, s).value !in existing
    decreases |slugs|
  {
    if slugs != [] {
      MissingOfMembers(kind, dir, slugs[1..], existing, s);
      assert s in slugs <==> s == slugs[0] || s in slugs[1..];
    }
  }

  /** The reference list is empty exactly when no slug lacks its file. */
  lemma MissingOfEmpty(kind: AssetKind, dir: Path, slugs: seq<string>, existing: set<Path>)
    ensures MissingOf(kind, dir, slugs, existing) == [] <==> AllPresent(kind, dir, slugs, existing)
  {
    if MissingOf(kind, dir, slugs, existing) != [] {
      var s := MissingOf(kind, dir, slugs, existing)[0];
      MissingOfMembers(kind, dir, slugs, existing, s);
    } else {
      forall s | s in slugs && AssetPath(kind, dir, s).Ok?
        ensures AssetPath(kind, dir, s).value in existing
      {
        MissingOfMembers(kind, dir, slugs, existing, s);
      }
    }
  }

  /** A row gets through the scan, whatever the lists so far, exactly when it is `RowOk`. */
  lemma ScanRowOk(target: AssetType, dirs: Dirs, existing: set<Path>, m: Missing, row: Option<string>)
    ensures ScanRow(target, dirs, existing, m, row).Ok? <==> RowOk(target, dirs, row)
  {
    if row.Some? && !RowOk(target, dirs, row) {
      var kind: AssetKind :| Includes(target, kind) && AssetPath(kind, DirOf(dirs, kind), row.value).Err?;
    }
  }

  /** One row adds to each selected list its reference list of that one slug. */
  lemma ScanRowList(target: AssetType, dirs: Dirs, existing: set<Path>, m: Missing, row: Option<string>, kind: AssetKind)
    requires ScanRow(target, dirs, existing, m, row).Ok?
    ensures row.Some?
    ensures ListOf(ScanRow(target, dirs, existing, m, row).value, kind) ==
      ListOf(m, kind) + (if Includes(target, kind) then MissingOf(kind, DirOf(dirs, kind), [row.value], existing) else [])
  {
    MarkList(kind, target, DirOf(dirs, kind), row.value, existing, ListOf(m, kind));
  }

  /** The check of one kind adds the slug exactly when the reference list of that slug holds it. */
  lemma MarkList(kind: AssetKind, target: AssetType, dir: Path, slug: string, existing: set<Path>, list: seq<string>)
    requires Mark(kind, target, dir, slug, existing, list).Ok?
    ensures Mark(kind, target, dir, slug, existing, list).value ==
      list + (if Includes(target, kind) then MissingOf(kind, dir, [slug], existing) else [])
  {
    assert [slug][1..] == [];
  }

  /** Every row is `RowOk`, stated the way the scan reads the rows. */
  predicate RowsOk(target: AssetType, dirs: Dirs, rows: seq<Option<string>>)
    decreases |rows|
  {
    rows == [] || (RowsOk(target, dirs, rows[..|rows| - 1]) && RowOk(target, dirs, rows[|rows| - 1]))
  }

  lemma {:induction false} RowsOkIff(target: AssetType, dirs: Dirs, rows: seq<Option<string>>)
    ensures RowsOk(target, dirs, rows) <==> forall i :: 0 <= i < |rows| ==> RowOk(target, dirs, rows[i])
    decreases |rows|
  {
    if rows != [] {
      var init := rows[..|rows| - 1];
      RowsOkIff(target, dirs, init);
      assert forall i :: 0 <= i < |init| ==> init[i] == rows[i];
      if forall i :: 0 <= i < |init| ==> RowOk(target, dirs, init[i]) {
        if RowOk(target, dirs, rows[|rows| - 1]) {
          forall i | 0 <= i < |rows| ensures RowOk(target, dirs, rows[i]) {
            if i < |init| {
              assert rows[i] == init[i];
            }
          }
        }
      }
    }
  }

  /** The scan succeeds exactly when every row is `RowOk`. */
  lemma {:induction false} ScanRowsOkIff(target: AssetType, dirs: Dirs, existing: set<Path>, rows: seq<Option<string>>)
    ensures ScanRows(target, dirs, existing, rows).Ok? <==> RowsOk(target, dirs, rows)
    decreases |rows|
  {
    if rows != [] {
      var init := rows[..|rows| - 1];
      ScanRowsOkIff(target, dirs, existing, init);
      if ScanRows(target, dirs, existing, init).Ok? {
        ScanRowOk(target, dirs, existing, ScanRows(target, dirs, existing, init).value, rows[|rows| - 1]);
      }
    }
  }

  /** A successful scan yields, for each kind, the reference list when selected and nothing otherwise. */
  lemma ScanRowsLists(target: AssetType, dirs: Dirs, existing: set<Path>, rows: seq<Option<string>>)
    requires ScanRows(target, dirs, existing, rows).Ok?
    ensures ListsMatch(target, dirs, existing, Slugs(rows), ScanRows(target, dirs, existing, rows).value)
  {
    forall kind: AssetKind
      ensures ListOf(ScanRows(target, dirs, existing, rows).value, kind) ==
        (if Includes(target, kind) then MissingOf(kind, DirOf(dirs, kind), Slugs(rows), existing) else [])
    {
      ScanRowsList(target, dirs, existing, rows, kind);
    }
  }

  lemma {:induction false} ScanRowsList(target: AssetType, dirs: Dirs, existing: set<Path>, rows: seq<Option<string>>,
                                        kind: AssetKind)
    requires ScanRows(target, dirs, existing, rows).Ok?
    ensures ListOf(ScanRows(target, dirs, existing, rows).value, kind) ==
      (if Includes(target, kind) then MissingOf(kind, DirOf(dirs, kind), Slugs(rows), existing) else [])
    decreases |rows|
  {
    if rows != [] {
      var init, last := rows[..|rows| - 1], rows[|rows| - 1];
      var m0 := ScanRows(target, dirs, existing, init).value;
      ScanRowsList(target, dirs, existing, init, kind);
      ScanRowList(target, dirs, existing, m0, last, kind);
      SlugsSnoc(rows);
      MissingOfAppend(kind, DirOf(dirs, kind), Slugs(init), [last.value], existing);
    }
  }

  /** The slugs of all rows are those of all rows but the last, then the last one's. */
  lemma SlugsSnoc(rows: seq<Option<string>>)
    requires rows != [] && rows[|rows| - 1].Some?
    ensures Slugs(rows) == Slugs(rows[..|rows| - 1]) + [rows[|rows| - 1].value]
  {
    var init, last := rows[..|rows| - 1], rows[|rows| - 1];
    assert rows == init + [last];
    SlugsAppend(init, [last]);
    assert Slugs([last]) == [last.value] by {
      assert [last][1..] == [];
    }
  }

  /**
   * The scan succeeds exactly when the query does and every row is `RowOk`;
   * then each selected list holds, in database order, the slugs whose asset
   * file is missing, and each unselected list is empty.
   */
  lemma ScanFindsMissing(target: AssetType, dirs: Dirs, db: Option<seq<Option<string>>>, existing: set<Path>)
    ensures ScanResult(target, dirs, db, existing).Ok? <==>
      db.Some? && forall i :: 0 <= i < |db.value| ==> RowOk(target, dirs, db.value[i])
    ensures ScanResult(target, dirs, db, existing).Ok? ==>
      ListsMatch(target, dirs, existing, Slugs(db.value), ScanResult(target, dirs, db, existing).value)
  {
    if db.Some? {
      ScanRowsOkIff(target, dirs, existing, db.value);
      RowsOkIff(target, dirs, db.value);
      if ScanRows(target, dirs, existing, db.value).Ok? {
        ScanRowsLists(target, dirs, existing, db.value);
      }
    }
  }

  /** A slug is listed for a kind exactly when the kind is selected, the slug is in the database and its file is missing. */
  lemma ScanListedIff(target: AssetType, dirs: Dirs, db: Option<seq<Option<string>>>, existing: set<Path>,
                      kind: AssetKind, s: string)
    requires ScanResult(target, dirs, db, existing).Ok?
    ensures s in ListOf(ScanResult(target, dirs, db, existing).value, kind) <==>
      Includes(target, kind) && s in Slugs(db.value) && AssetPath(kind, DirOf(dirs, kind), s).Ok?
      && AssetPath(kind, DirOf(dirs, kind), s).value !in existing
  {
    ScanFindsMissing(target, dirs, db, existing);
    MissingOfMembers(kind, DirOf(dirs, kind), Slugs(db.value), existing, s);
    if Includes(target, kind) && s in Slugs(db.value) {
      var i := SlugRow(db.value, s);
      assert RowOk(target, dirs, db.value[i]);
    }
  }

  /** Where a slug came from. */
  lemma {:induction false} SlugRow(rows: seq<Option<string>>, s: string) returns (i: nat)
    requires s in Slugs(rows)
    ensures i < |rows| && rows[i] == Some(s)
    decreases |rows|
  {
    if rows[0] == Some(s) {
      i := 0;
    } else {
      assert s in Slugs(rows[1..]);
      var k := SlugRow(rows[1..], s);
      i := k + 1;
    }
  }

  /**
   * After a successful scan a notice is logged exactly when no selected
   * asset of any game is missing, and it is the target's own message.
   */
  lemma NoticeIffNothingMissing(target: AssetType, dirs: Dirs, db: Option<seq<Option<string>>>, existing: set<Path>)
    requires ScanResult(target, dirs, db, existing).Ok?
    ensures NoticeFor(target, ScanResult(target, dirs, db, existing).value) ==
      if NothingMissing(target, dirs, Slugs(db.value), existing) then Some(NoticeOf(target)) else None
  {
    ScanFindsMissing(target, dirs, db, existing);
    NoticeOfLists(target, dirs, existing, Slugs(db.value), ScanResult(target, dirs, db, existing).value);
  }

  lemma NoticeOfLists(target: AssetType, dirs: Dirs, existing: set<Path>, slugs: seq<string>, m: Missing)
    requires ListsMatch(target, dirs, existing, slugs, m)
    ensures NoticeFor(target, m) == if NothingMissing(target, dirs, slugs, existing) then Some(NoticeOf(target)) else None
  {
    assert m.covers == ListOf(m, Covers) && m.banners == ListOf(m, Banners) && m.icons == ListOf(m, Icons);
    MissingOfEmpty(Covers, dirs.coverArt, slugs, existing);
    MissingOfEmpty(Banners, dirs.banners, slugs, existing);
    MissingOfEmpty(Icons, dirs.icons, slugs, existing);
  }

  /**
   * The fetchers of `kinds` run in that order, each on its own list,
   * directory and resize method; every call but the last ended without an
   * exception, and the calls stop short of `kinds` only after one that raised.
   */
  lemma {:induction false} CallsInOrder(kinds: seq<AssetKind>, mode: ResizeMethod, dirs: Dirs, m: Missing, cat: Catalog)
    ensures |CallsFrom(kinds, mode, dirs, m, cat)| <= |kinds|
    ensures kinds != [] ==> |CallsFrom(kinds, mode, dirs, m, cat)| >= 1
    ensures forall k :: 0 <= k < |CallsFrom(kinds, mode, dirs, m, cat)| ==>
      CallsFrom(kinds, mode, dirs, m, cat)[k] == CallOf(kinds[k], mode, dirs, m, cat)
    ensures forall k :: 0 <= k < |CallsFrom(kinds, mode, dirs, m, cat)| - 1 ==>
      !CallsFrom(kinds, mode, dirs, m, cat)[k].status.Crashed?
    ensures |CallsFrom(kinds, mode, dirs, m, cat)| < |kinds| ==>
      CallsFrom(kinds, mode, dirs, m, cat)[|CallsFrom(kinds, mode, dirs, m, cat)| - 1].status.Crashed?
    decreases |kinds|
  {
    if kinds != [] {
      CallsInOrder(kinds[1..], mode, dirs, m, cat);
    }
  }

  /**
   * A failed scan fetches nothing. After a successful one the fetchers run
   * in the order covers, banners, icons, restricted to the target; each gets
   * the missing slugs of its kind in database order, its own directory and
   * the resize method (none for icons), and its run is the fetch loop's; only
   * the last call may have raised, and a call is missing only after one that raised.
   */
  lemma CliCalls(target: AssetType, mode: ResizeMethod, dirs: Dirs, db: Option<seq<Option<string>>>,
                 cat: Catalog, existing: set<Path>, r: Report)
    requires r == CliSpec(target, mode, dirs, db, cat, existing)
    ensures r.Aborted? <==> !(db.Some? && forall i :: 0 <= i < |db.value| ==> RowOk(target, dirs, db.value[i]))
    ensures r.Aborted? ==> ReportWrites(cat, r) == []
    ensures r.Ran? ==> 1 <= |r.calls| <= |Kinds(target)|
    ensures r.Ran? ==> forall k :: 0 <= k < |r.calls| ==>
      r.calls[k].kind == Kinds(target)[k] && r.calls[k].dir == DirOf(dirs, r.calls[k].kind)
      && r.calls[k].mode == ModeFor(r.calls[k].kind, mode)
      && r.calls[k].games == MissingOf(r.calls[k].kind, r.calls[k].dir, Slugs(db.value), existing)
      && r.calls[k].status == RunFetch(r.calls[k].kind, cat, r.calls[k].dir, r.calls[k].mode, r.calls[k].games).status
      && r.calls[k].searched == RunFetch(r.calls[k].kind, cat, r.calls[k].dir, r.calls[k].mode, r.calls[k].games).searched
    ensures r.Ran? ==> forall k :: 0 <= k < |r.calls| - 1 ==> !r.calls[k].status.Crashed?
    ensures r.Ran? && |r.calls| < |Kinds(target)| ==> r.calls[|r.calls| - 1].status.Crashed?
  {
    ScanFindsMissing(target, dirs, db, existing);
    if r.Ran? {
      var m := ScanResult(target, dirs, db, existing).value;
      CallsInOrder(Kinds(target), mode, dirs, m, cat);
      forall k | 0 <= k < |r.calls|
        ensures r.calls[k].games == MissingOf(r.calls[k].kind, r.calls[k].dir, Slugs(db.value), existing)
      {
        assert Kinds(target)[k] in Kinds(target);
      }
    }
  }

  /**
   * A rerun does not fetch again what a run processed: the asset file of a
   * slug a fetcher processed exists afterwards, so a second scan of the same
   * database does not list that slug for that kind.
   */
  lemma RerunSkipsProcessed(target: AssetType, mode: ResizeMethod, dirs: Dirs, db: Option<seq<Option<string>>>,
                            cat: Catalog, files: map<Path, Image>, r: Report, k: nat, j: nat)
    requires r == CliSpec(target, mode, dirs, db, cat, files.Keys) && r.Ran?
    requires k < |r.calls| && j < |r.calls[k].games| && j < r.calls[k].searched
    requires StepOf(r.calls[k].kind, cat, r.calls[k].dir, r.calls[k].mode, r.calls[k].games[j]).Processed?
    ensures AssetPath(r.calls[k].kind, r.calls[k].dir, r.calls[k].games[j]).Ok?
    ensures AssetPath(r.calls[k].kind, r.calls[k].dir, r.calls[k].games[j]).value
      in ApplyWrites(files, ReportWrites(cat, r))
    ensures ScanResult(target, dirs, db, ApplyWrites(files, ReportWrites(cat, r)).Keys).Ok? ==>
      r.calls[k].games[j] !in ListOf(ScanResult(target, dirs, db, ApplyWrites(files, ReportWrites(cat, r)).Keys).value,
                                     r.calls[k].kind)
  {
    CliCalls(target, mode, dirs, db, cat, files.Keys, r);
    var c := r.calls[k];
    ProcessedSurvives(cat, r.calls, k, j, files);
    var after := ApplyWrites(files, ReportWrites(cat, r));
    if ScanResult(target, dirs, db, after.Keys).Ok? {
      ScanListedIff(target, dirs, db, after.Keys, c.kind, c.games[j]);
    }
  }

  /**
   * A banner whose post-processing raised is never retried: its raw download
   * sits at the asset path, so the next scan counts the banner as present.
   */
  lemma CrashedBannerNotRetried(cat: Catalog, dir: Path, mode: ResizeMethod, slug: string, files: map<Path, Image>)
    requires cat.search(slug) != []
    requires var id := cat.search(slug)[0].id;
      cat.heroes(id).Some? && cat.heroes(id).value != [] && cat.logos(id).Some?
    requires AssetPath(Banners, dir, slug).Ok?
    requires var id := cat.search(slug)[0].id;
      cat.logos(id).value == [] || cat.download(cat.heroes(id).value[0].url).width == 1
    ensures RunFetch(Banners, cat, dir, mode, [slug]).status.Crashed?
    ensures MissingOf(Banners, dir, [slug], ApplyWrites(files, RunFetch(Banners, cat, dir, mode, [slug]).writes).Keys) == []
  {
    BannerCrashKeepsDownload(cat, dir, mode, slug, files);
    assert [slug][1..] == [];
  }

  /** The file a call wrote for a processed slug is still there after all the calls. */
  lemma ProcessedSurvives(cat: Catalog, cs: seq<Call>, k: nat, j: nat, files: map<Path, Image>)
    requires k < |cs| && j < |cs[k].games|
    requires j < RunFetch(cs[k].kind, cat, cs[k].dir, cs[k].mode, cs[k].games).searched
    requires StepOf(cs[k].kind, cat, cs[k].dir, cs[k].mode, cs[k].games[j]).Processed?
    ensures AssetPath(cs[k].kind, cs[k].dir, cs[k].games[j]).Ok?
    ensures AssetPath(cs[k].kind, cs[k].dir, cs[k].games[j]).value in ApplyWrites(files, AllWrites(cat, cs))
  {
    var c := cs[k];
    AllWritesSplit(cat, cs, k);
    var before, mine, later := AllWrites(cat, cs[..k]), CallWrites(cat, c), AllWrites(cat, cs[k + 1..]);
    var f1 := ApplyWrites(files, before);
    ProcessedFileExists(c.kind, cat, c.dir, c.mode, c.games, f1, j);
    KeepsFile(files, before, mine, later, AssetPath(c.kind, c.dir, c.games[j]).value);
  }

  lemma AllWritesSplit(cat: Catalog, cs: seq<Call>, k: nat)
    requires k < |cs|
    ensures AllWrites(cat, cs) == AllWrites(cat, cs[..k]) + (CallWrites(cat, cs[k]) + AllWrites(cat, cs[k + 1..]))
  {
    assert cs == cs[..k] + ([cs[k]] + cs[k + 1..]);
    AllWritesAppend(cat, cs[..k], [cs[k]] + cs[k + 1..]);
    AllWritesAppend(cat, [cs[k]], cs[k + 1..]);
    assert AllWrites(cat, [cs[k]]) == CallWrites(cat, cs[k]) + [];
  }

  /** A file present after the writes `a` and `b` is still present after `c` as well. */
  lemma KeepsFile(files: map<Path, Image>, a: seq<Write>, b: seq<Write>, c: seq<Write>, p: Path)
    requires p in ApplyWrites(ApplyWrites(files, a), b)
    ensures p in ApplyWrites(files, a + (b + c))
  {
    ApplyWritesAppend(files, a, b + c);
    ApplyWritesAppend(ApplyWrites(files, a), b, c);
    ApplyWritesKeys(ApplyWrites(ApplyWrites(files, a), b), c);
  }
}
