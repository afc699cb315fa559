/**
 * The three fetch loops of fetch.py (`fetch_icons`, `fetch_banners`,
 * `fetch_cover_art`). The SteamGridDB catalog and the HTTP downloads are a
 * `Catalog` of functions; the destination directory is a `Disk` whose files
 * are overwritten in place.
 */
module Fetch {
  import opened Wrappers
  import opened Enums
  import opened Paths
  import opened Images

  /** A catalog search hit: SteamGridDB game id and display name. */
  datatype Entry = Entry(id: int, name: string)

  /** An image resource offered by the catalog. */
  datatype Resource = Resource(url: string)

  /**
   * The remote catalog: search by slug, the per-kind image sets by game id
   * (`None` when the catalog has none), and the image a URL downloads to.
   */
  datatype Catalog = Catalog(
    search: string -> seq<Entry>,
    grids: int -> Option<seq<Resource>>,
    heroes: int -> Option<seq<Resource>>,
    logos: int -> Option<seq<Resource>>,
    icons: int -> Option<seq<Resource>>,
    download: string -> Image)

  /** The image set a kind asks for: JPEG grids, alternate-style JPEG heroes, or icons. */
  function ImageSet(kind: AssetKind, cat: Catalog, id: int): Option<seq<Resource>>
  {
    if kind == Covers then cat.grids(id)
    else if kind == Banners then cat.heroes(id)
    else cat.icons(id)
  }

  /** One file write: the whole file at `path` now holds `image`. */
  datatype Write = Write(path: Path, image: Image)

  /** The files of the disk after a series of writes, in order. */
  function ApplyWrites(files: map<Path, Image>, ws: seq<Write>): map<Path, Image>
    decreases |ws|
  {
    if ws == [] then files else ApplyWrites(files[ws[0].path := ws[0].image], ws[1..])
  }

  /** The exceptions a fetch loop does not catch. */
  datatype Failure =
    | IndexError                       // `[0]` on an empty image list
    | InvalidPath(path: PathError)     // `with_suffix` on an empty name
    | ImageFailure(image: ImageError)  // Pillow refused to resize the logo

  /** What handling one slug does. */
  datatype Step =
    | NotFound                                             // empty search: the loop breaks
    | NoImages                                             // `None` image set: the slug is skipped
    | Processed(path: Path, downloaded: Image, saved: Image)
    | Failed(failure: Failure, written: seq<Write>)        // raised, after `written`

  /** How a loop ended. */
  datatype Status = Completed | Stopped | Crashed(failure: Failure)

  /** A whole loop: its writes, how many slugs it searched for, and how it ended. */
  datatype Outcome = Outcome(writes: seq<Write>, searched: nat, status: Status)

  /** The writes one step performs: the download, then the processed image. */
  function StepWrites(s: Step): seq<Write>
  {
    match s
    case Processed(p, raw, img) => [Write(p, raw), Write(p, img)]
    case Failed(_, ws) => ws
    case _ => []
  }

  /** Whether the loop goes on to the next slug after the step. */
  predicate Continues(s: Step)
  {
    s.NoImages? || s.Processed?
  }

  /**
   * What happens to the downloaded image once it is on disk: icons are
   * thumbnailed, covers resized, banners get the logo (if the catalog has one)
   * and are then resized.
   */
  function Finish(kind: AssetKind, cat: Catalog, id: int, raw: Image, mode: ResizeMethod): Result<Image, Failure>
  {
    if kind == Icons then Ok(IconImage(raw))
    else if kind == Covers then Ok(FitCover(raw, mode))
    else match cat.logos(id)
      case None => Ok(FitBanner(raw, mode))
      case Some(ls) =>
        if ls == [] then Err(IndexError)
        else match ComposeBanner(raw, cat.download(ls[0].url))
          case Err(e) => Err(ImageFailure(e))
          case Ok(b) => Ok(FitBanner(b, mode))
  }

  /** One iteration of the loop body for `slug`. */
  function StepOf(kind: AssetKind, cat: Catalog, dir: Path, mode: ResizeMethod, slug: string): Step
  {
    var res := cat.search(slug);
    if res == [] then NotFound
    else match ImageSet(kind, cat, res[0].id)
      case None => NoImages
      case Some(rs) =>
        if rs == [] then Failed(IndexError, [])
        else match AssetPath(kind, dir, slug)
          case Err(e) => Failed(InvalidPath(e), [])
          case Ok(p) =>
            var raw := cat.download(rs[0].url);
            match Finish(kind, cat, res[0].id, raw, mode)
            case Err(f) => Failed(f, [Write(p, raw)])
            case Ok(img) => Processed(p, raw, img)
  }

  /** A run that first did `ws` over `n` slugs and then went on as `r`. */
  function After(ws: seq<Write>, n: nat, r: Outcome): Outcome
  {
    Outcome(ws + r.writes, n + r.searched, r.status)
  }

  /** The loop after a step `s`: it breaks, raises, or goes on as `rest`. */
  function Then(s: Step, rest: Outcome): Outcome
  {
    match s
    case NotFound => Outcome([], 1, Stopped)
    case Failed(f, ws) => Outcome(ws, 1, Crashed(f))
    case _ => After(StepWrites(s), 1, rest)
  }

  /** A loop over steps already worked out, in order. */
  function RunSteps(ss: seq<Step>): Outcome
    decreases |ss|
  {
    if ss == [] then Outcome([], 0, Completed) else Then(ss[0], RunSteps(ss[1..]))
  }

  /** The loop over the steps from index `i` on. */
  function RunFrom(ss: seq<Step>, i: nat): Outcome
    decreases |ss| - i
  {
    if i >= |ss| then Outcome([], 0, Completed) else Then(ss[i], RunFrom(ss, i + 1))
  }

  /** The writes of the first `i` steps, in order. */
  function WritesOf(ss: seq<Step>, i: nat): seq<Write>
    requires i <= |ss|
  {
    if i == 0 then [] else WritesOf(ss, i - 1) + StepWrites(ss[i - 1])
  }

  /** What the loop body would do for each slug, on its own. */
  function StepsOf(kind: AssetKind, cat: Catalog, dir: Path, mode: ResizeMethod, games: seq<string>): (ss: seq<Step>)
    ensures |ss| == |games|
    decreases |games|
  {
    if games == [] then [] else [StepOf(kind, cat, dir, mode, games[0])] + StepsOf(kind, cat, dir, mode, games[1..])
  }

  /** The whole loop over `games`, as a function of the inputs. */
  function RunFetch(kind: AssetKind, cat: Catalog, dir: Path, mode: ResizeMethod, games: seq<string>): Outcome
  {
    RunSteps(StepsOf(kind, cat, dir, mode, games))
  }

  /** The directory the loop writes into: its files and the log of every write. */
  class Disk {
    var files: map<Path, Image>
    var writes: seq<Write>

    constructor (files: map<Path, Image>)
      ensures this.files == files && writes == []
    {
      this.files := files;
      writes := [];
    }

    /** `open(path, "wb").write(...)` or `image.save(path)`: the file is replaced whole. */
    method Save(w: Write)
      modifies this
      ensures files == old(files)[w.path := w.image]
      ensures writes == old(writes) + [w]
    {
      files := files[w.path := w.image];
      writes := writes + [w];
    }
  }

  /**
   * The per-kind part of the loop body, after the download is on disk:
   * thumbnail an icon; resize a cover; paste the first logo (when the catalog
   * offers logos) on a banner and resize it.
   */
  method PostProcess(kind: AssetKind, cat: Catalog, id: int, raw: Image, mode: ResizeMethod)
    returns (r: Result<Image, Failure>)
    ensures r == Finish(kind, cat, id, raw, mode)
  {
    var img := raw;
    if kind == Icons {
      img := IconImage(img);
    } else if kind == Covers {
      img := FitCover(img, mode);
    } else {
      var logos := cat.logos(id);
      if logos.Some? {
        if logos.value == [] {
          return Err(IndexError);
        }
        var composed := ComposeBanner(img, cat.download(logos.value[0].url));
        if composed.Err? {
          return Err(ImageFailure(composed.error));
        }
        img := composed.value;
      }
      img := FitBanner(img, mode);
    }
    return Ok(img);
  }

  /**
   * The loop body for one slug: search it; stop on no hit; skip it when the
   * catalog has no image set; otherwise take the first image (raising on an
   * empty list), write the download to the asset path, post-process it and
   * overwrite the file. `next` says whether the loop goes on; when it does
   * not, `status` says why.
   */
  method FetchSlug(kind: AssetKind, cat: Catalog, dir: Path, mode: ResizeMethod, disk: Disk,
                   games: seq<string>, i: nat, ghost ss: seq<Step>)
    returns (next: bool, status: Status, ghost step: Step)
    requires i < |games| && |ss| == |games|
    requires forall j {:trigger StepOf(kind, cat, dir, mode, games[j])} ::
      0 <= j < |games| ==> ss[j] == StepOf(kind, cat, dir, mode, games[j])
    modifies disk
    ensures step == ss[i]
    ensures next == Continues(step)
    ensures step.NotFound? ==> status == Stopped
    ensures step.Failed? ==> status == Crashed(step.failure)
    ensures disk.writes == old(disk.writes) + StepWrites(step)
    ensures disk.files == ApplyWrites(old(disk.files), StepWrites(step))
  {
    var game := games[i];
    step := StepOf(kind, cat, dir, mode, game);
    assert step == ss[i];
    var res := cat.search(game);
    if res == [] {
      return false, Stopped, step;
    }
    var id := res[0].id;
    var found := ImageSet(kind, cat, id);
    if found.None? {
      return true, Completed, step;
    }
    if found.value == [] {
      return false, Crashed(IndexError), step;
    }
    var raw := cat.download(found.value[0].url);
    var path := AssetPath(kind, dir, game);
    if path.Err? {
      return false, Crashed(InvalidPath(path.error)), step;
    }
    disk.Save(Write(path.value, raw));
    var processed := PostProcess(kind, cat, id, raw, mode);
    if processed.Err? {
      assert step == Failed(processed.error, [Write(path.value, raw)]);
      return false, Crashed(processed.error), step;
    }
    var img := processed.value;
    disk.Save(Write(path.value, img));
    assert step == Processed(path.value, raw, img);
    ApplyWritesAppend(old(disk.files), [Write(path.value, raw)], [Write(path.value, img)]);
    assert old(disk.writes) + [Write(path.value, raw)] + [Write(path.value, img)] == old(disk.writes) + StepWrites(step);
    return true, Completed, step;
  }

  /**
   * The loop shared by the three fetchers: handle each slug in order until
   * one stops or raises. Returns how the loop ended and how many slugs it
   * searched for.
   */
  method FetchAssets(kind: AssetKind, cat: Catalog, games: seq<string>, dir: Path, mode: ResizeMethod, disk: Disk)
    returns (status: Status, searches: nat)
    modifies disk
    ensures status == RunFetch(kind, cat, dir, mode, games).status
    ensures searches == RunFetch(kind, cat, dir, mode, games).searched
    ensures disk.writes == old(disk.writes) + RunFetch(kind, cat, dir, mode, games).writes
    ensures disk.files == ApplyWrites(old(disk.files), RunFetch(kind, cat, dir, mode, games).writes)
  {
    ghost var ss := StepsOf(kind, cat, dir, mode, games);
    forall j | 0 <= j < |games| ensures ss[j] == StepOf(kind, cat, dir, mode, games[j]) {
      StepsOfAt(kind, cat, dir, mode, games, j);
    }
    status, searches := FetchLoop(kind, cat, games, dir, mode, disk, ss);
  }

  /** The loop of `FetchAssets`, against the steps its body takes for each slug. */
  method FetchLoop(kind: AssetKind, cat: Catalog, games: seq<string>, dir: Path, mode: ResizeMethod, disk: Disk,
                   ghost ss: seq<Step>)
    returns (status: Status, searches: nat)
    requires |ss| == |games|
    requires forall j {:trigger StepOf(kind, cat, dir, mode, games[j])} ::
      0 <= j < |games| ==> ss[j] == StepOf(kind, cat, dir, mode, games[j])
    modifies disk
    ensures status == RunSteps(ss).status && searches == RunSteps(ss).searched
    ensures disk.writes == old(disk.writes) + RunSteps(ss).writes
    ensures disk.files == ApplyWrites(old(disk.files), RunSteps(ss).writes)
  {
    ghost var done: seq<Write> := [];
    status, searches := Completed, 0;
    var i := 0;
    while i < |games|
      invariant 0 <= i <= |games| && searches == i
      invariant disk.writes == old(disk.writes) + done
      invariant disk.files == ApplyWrites(old(disk.files), done)
      invariant done == WritesOf(ss, i)
      invariant forall j :: 0 <= j < i ==> Continues(ss[j])
    {
      ghost var step;
      var next, st;
      next, st, step := FetchSlug(kind, cat, dir, mode, disk, games, i, ss);
      ghost var ws := StepWrites(step);
      ApplyWritesAppend(old(disk.files), done, ws);
      AppendAssoc(old(disk.writes), done, ws);
      searches := searches + 1;
      if !next {
        RunStepsStop(ss, i);
        status := st;
        return;
      }
      done := done + ws;
      i := i + 1;
    }
    RunStepsAll(ss);
  }

  /** `fetch_cover_art(sgdb, games, path, resize)`. */
  method FetchCoverArt(cat: Catalog, games: seq<string>, dir: Path, mode: ResizeMethod, disk: Disk)
    returns (status: Status, searches: nat)
    modifies disk
    ensures var r := RunFetch(Covers, cat, dir, mode, games);
      status == r.status && searches == r.searched
    ensures var r := RunFetch(Covers, cat, dir, mode, games);
      disk.writes == old(disk.writes) + r.writes && disk.files == ApplyWrites(old(disk.files), r.writes)
  {
    status, searches := FetchAssets(Covers, cat, games, dir, mode, disk);
  }

  /** `fetch_banners(sgdb, games, path, resize)`. */
  method FetchBanners(cat: Catalog, games: seq<string>, dir: Path, mode: ResizeMethod, disk: Disk)
    returns (status: Status, searches: nat)
    modifies disk
    ensures var r := RunFetch(Banners, cat, dir, mode, games);
      status == r.status && searches == r.searched
    ensures var r := RunFetch(Banners, cat, dir, mode, games);
      disk.writes == old(disk.writes) + r.writes && disk.files == ApplyWrites(old(disk.files), r.writes)
  {
    status, searches := FetchAssets(Banners, cat, games, dir, mode, disk);
  }

  /** `fetch_icons(sgdb, games, path)`: icons take no resize method. */
  method FetchIcons(cat: Catalog, games: seq<string>, dir: Path, disk: Disk)
    returns (status: Status, searches: nat)
    modifies disk
    ensures var r := RunFetch(Icons, cat, dir, NoResize, games);
      status == r.status && searches == r.searched
    ensures var r := RunFetch(Icons, cat, dir, NoResize, games);
      disk.writes == old(disk.writes) + r.writes && disk.files == ApplyWrites(old(disk.files), r.writes)
  {
    status, searches := FetchAssets(Icons, cat, games, dir, NoResize, disk);
  }

  // ---------------------------------------------------------------- lemmas

  /** Writing `a` then `b` is writing `a + b`. */
  lemma {:induction false} ApplyWritesAppend(files: map<Path, Image>, a: seq<Write>, b: seq<Write>)
    ensures ApplyWrites(files, a + b) == ApplyWrites(ApplyWrites(files, a), b)
    decreases |a|
  {
    if a == [] {
      assert a + b == b;
    } else {
      assert (a + b)[0] == a[0] && (a + b)[1..] == a[1..] + b;
      ApplyWritesAppend(files[a[0].path := a[0].image], a[1..], b);
    }
  }

  /** A path that no write names keeps its file (or its absence). */
  lemma {:induction false} ApplyWritesFrame(files: map<Path, Image>, ws: seq<Write>, p: Path)
    requires forall k :: 0 <= k < |ws| ==> ws[k].path != p
    ensures p in ApplyWrites(files, ws) <==> p in files
    ensures p in files ==> ApplyWrites(files, ws)[p] == files[p]
    decreases |ws|
  {
    if ws != [] {
      ApplyWritesFrame(files[ws[0].path := ws[0].image], ws[1..], p);
    }
  }

  /** Every written path holds a file afterwards, and no file disappears. */
  lemma {:induction false} ApplyWritesKeys(files: map<Path, Image>, ws: seq<Write>)
    ensures ApplyWrites(files, ws).Keys == files.Keys + set k | 0 <= k < |ws| :: ws[k].path
    decreases |ws|
  {
    if ws != [] {
      ApplyWritesKeys(files[ws[0].path := ws[0].image], ws[1..]);
      var rest := set k | 0 <= k < |ws| - 1 :: ws[1..][k].path;
      var all := set k | 0 <= k < |ws| :: ws[k].path;
      assert all == {ws[0].path} + rest by {
        forall q | q in all ensures q in {ws[0].path} + rest {
          var k :| 0 <= k < |ws| && ws[k].path == q;
          if k > 0 { assert ws[1..][k - 1].path == q; }
        }
        forall q | q in rest ensures q in all {
          var k :| 0 <= k < |ws| - 1 && ws[1..][k].path == q;
          assert ws[k + 1].path == q;
        }
      }
    }
  }

  // Lemmas about loops over worked-out steps.

  /** How a loop over steps ends, and which steps it consumed. */
  lemma {:induction false} RunStepsEnds(ss: seq<Step>)
    ensures var r := RunSteps(ss);
      && r.searched <= |ss|
      && (r.status == Completed <==> r.searched == |ss| && forall j :: 0 <= j < |ss| ==> Continues(ss[j]))
      && (r.status != Completed ==> r.searched >= 1 && forall j :: 0 <= j < r.searched - 1 ==> Continues(ss[j]))
      && (r.status == Stopped ==> ss[r.searched - 1] == NotFound)
      && (r.status.Crashed? ==> ss[r.searched - 1].Failed? && ss[r.searched - 1].failure == r.status.failure)
    decreases |ss|
  {
    if ss != [] {
      var q := RunSteps(ss[1..]);
      RunStepsEnds(ss[1..]);
      if Continues(ss[0]) {
        forall j | 1 <= j < |ss| ensures ss[j] == ss[1..][j - 1] { }
      }
    }
  }

  /** Once a loop over steps has stopped or raised, later steps make no difference. */
  lemma {:induction false} RunStepsIgnoresRest(ss: seq<Step>, rest: seq<Step>)
    requires RunSteps(ss).status != Completed
    ensures RunSteps(ss + rest) == RunSteps(ss)
    decreases |ss|
  {
    assert (ss + rest)[0] == ss[0];
    if Continues(ss[0]) {
      assert (ss + rest)[1..] == ss[1..] + rest;
      RunStepsIgnoresRest(ss[1..], rest);
    }
  }

  /** A loop that completes `a` goes on with `b` from where it was. */
  lemma {:induction false} RunStepsAppend(a: seq<Step>, b: seq<Step>)
    requires RunSteps(a).status == Completed
    ensures RunSteps(a + b) == After(RunSteps(a).writes, RunSteps(a).searched, RunSteps(b))
    decreases |a|
  {
    if a == [] {
      assert a + b == b;
      assert [] + RunSteps(b).writes == RunSteps(b).writes;
    } else {
      assert (a + b)[0] == a[0] && (a + b)[1..] == a[1..] + b;
      RunStepsAppend(a[1..], b);
      var ws := StepWrites(a[0]);
      assert RunSteps(a) == After(ws, 1, RunSteps(a[1..]));
      assert RunSteps(a + b) == After(ws, 1, RunSteps(a[1..] + b));
      AppendAssoc(ws, RunSteps(a[1..]).writes, RunSteps(b).writes);
    }
  }

  /** `w` is a write of one of the first `n` steps. */
  predicate WrittenBy(ss: seq<Step>, n: nat, w: Write)
  {
    exists j :: 0 <= j < n && j < |ss| && w in StepWrites(ss[j])
  }

  /** Every write of a loop over steps is a write of one of the steps it consumed. */
  lemma {:induction false} RunStepsWrites(ss: seq<Step>)
    ensures forall k :: 0 <= k < |RunSteps(ss).writes| ==> WrittenBy(ss, RunSteps(ss).searched, RunSteps(ss).writes[k])
    decreases |ss|
  {
    RunStepsEnds(ss);
    if ss != [] {
      var r := RunSteps(ss);
      var n := |StepWrites(ss[0])|;
      if Continues(ss[0]) {
        RunStepsWrites(ss[1..]);
        var q := RunSteps(ss[1..]);
        assert r.writes == StepWrites(ss[0]) + q.writes && r.searched == 1 + q.searched;
        forall k | 0 <= k < |r.writes| ensures WrittenBy(ss, r.searched, r.writes[k]) {
          if k < n {
            assert r.writes[k] in StepWrites(ss[0]);
          } else {
            assert r.writes[k] == q.writes[k - n];
            assert WrittenBy(ss[1..], q.searched, q.writes[k - n]);
            var j :| 0 <= j < q.searched && j < |ss[1..]| && q.writes[k - n] in StepWrites(ss[1..][j]);
            assert ss[1..][j] == ss[j + 1];
          }
        }
      } else {
        assert r.writes == StepWrites(ss[0]);
        forall k | 0 <= k < |r.writes| ensures WrittenBy(ss, r.searched, r.writes[k]) {
          assert r.writes[k] in StepWrites(ss[0]);
        }
      }
    }
  }

  /**
   * `w` is a write of one of the steps the loop `r` consumed, and that step
   * was processed, or is the step whose exception ended the loop.
   */
  predicate SettledBy(ss: seq<Step>, r: Outcome, w: Write)
  {
    exists j :: 0 <= j < r.searched && j < |ss| && w in StepWrites(ss[j])
                && (ss[j].Processed? || (ss[j].Failed? && j == r.searched - 1 && r.status.Crashed?))
  }

  /**
   * Every write of a loop over steps comes from a processed step, or from the
   * step that raised, which is the last one the loop reached.
   */
  lemma RunStepsWritesSettled(ss: seq<Step>)
    ensures forall k :: 0 <= k < |RunSteps(ss).writes| ==> SettledBy(ss, RunSteps(ss), RunSteps(ss).writes[k])
  {
    var r := RunSteps(ss);
    RunStepsEnds(ss);
    RunStepsWrites(ss);
    forall k | 0 <= k < |r.writes| ensures SettledBy(ss, r, r.writes[k]) {
      assert WrittenBy(ss, r.searched, r.writes[k]);
      var j :| 0 <= j < r.searched && j < |ss| && r.writes[k] in StepWrites(ss[j]);
      if j < r.searched - 1 || r.status == Completed {
        assert Continues(ss[j]);
      }
    }
  }

  /**
   * After `i` steps that all go on, the loop has done their writes and
   * continues as the loop from step `i`.
   */
  lemma {:induction false} RunStepsPrefix(ss: seq<Step>, i: nat)
    requires i <= |ss|
    requires forall j :: 0 <= j < i ==> Continues(ss[j])
    ensures RunSteps(ss).writes == WritesOf(ss, i) + RunFrom(ss, i).writes
    ensures RunSteps(ss).searched == i + RunFrom(ss, i).searched
    ensures RunSteps(ss).status == RunFrom(ss, i).status
  {
    if i == 0 {
      RunFromSteps(ss, 0);
      assert ss[0..] == ss;
    } else {
      RunStepsPrefix(ss, i - 1);
      var w, rest := StepWrites(ss[i - 1]), RunFrom(ss, i).writes;
      assert WritesOf(ss, i - 1) + (w + rest) == (WritesOf(ss, i - 1) + w) + rest;
    }
  }

  /** A loop whose step `i` stops or raises, after `i` steps that go on. */
  lemma RunStepsStop(ss: seq<Step>, i: nat)
    requires i < |ss| && !Continues(ss[i])
    requires forall j :: 0 <= j < i ==> Continues(ss[j])
    ensures RunSteps(ss).writes == WritesOf(ss, i) + StepWrites(ss[i])
    ensures RunSteps(ss).searched == i + 1
    ensures RunSteps(ss).status == if ss[i].NotFound? then Stopped else Crashed(ss[i].failure)
  {
    RunStepsPrefix(ss, i);
  }

  /** A loop whose every step goes on. */
  lemma RunStepsAll(ss: seq<Step>)
    requires forall j :: 0 <= j < |ss| ==> Continues(ss[j])
    ensures RunSteps(ss).writes == WritesOf(ss, |ss|)
    ensures RunSteps(ss).searched == |ss| && RunSteps(ss).status == Completed
  {
    RunStepsPrefix(ss, |ss|);
    assert WritesOf(ss, |ss|) + [] == WritesOf(ss, |ss|);
  }

  /** Running from index `i` is running the suffix from `i`. */
  lemma {:induction false} RunFromSteps(ss: seq<Step>, i: nat)
    requires i <= |ss|
    ensures RunFrom(ss, i) == RunSteps(ss[i..])
    decreases |ss| - i
  {
    if i < |ss| {
      RunFromSteps(ss, i + 1);
      assert ss[i..][0] == ss[i] && ss[i..][1..] == ss[i + 1..];
    } else {
      assert ss[i..] == [];
    }
  }

  /** A processed step the loop reached leaves a write at its path. */
  lemma {:induction false} RunStepsWritesProcessed(ss: seq<Step>, j: nat)
    requires j < |ss| && j < RunSteps(ss).searched && ss[j].Processed?
    ensures exists k :: 0 <= k < |RunSteps(ss).writes| && RunSteps(ss).writes[k].path == ss[j].path
    decreases |ss|
  {
    RunStepsEnds(ss);
    var r := RunSteps(ss);
    if j == 0 {
      assert r.writes[0].path == ss[0].path;
    } else {
      assert Continues(ss[0]);
      assert ss[1..][j - 1] == ss[j];
      RunStepsWritesProcessed(ss[1..], j - 1);
      var q := RunSteps(ss[1..]);
      var k :| 0 <= k < |q.writes| && q.writes[k].path == ss[j].path;
      assert r.writes[|StepWrites(ss[0])| + k] == q.writes[k];
    }
  }

  // Lemmas about the fetch loops.

  /** Step `j` of a loop is what the loop body does for slug `j`. */
  lemma {:induction false} StepsOfAt(kind: AssetKind, cat: Catalog, dir: Path, mode: ResizeMethod, games: seq<string>, j: nat)
    requires j < |games|
    ensures StepsOf(kind, cat, dir, mode, games)[j] == StepOf(kind, cat, dir, mode, games[j])
    decreases |games|
  {
    if j > 0 {
      StepsOfAt(kind, cat, dir, mode, games[1..], j - 1);
      assert games[1..][j - 1] == games[j];
    }
  }

  /** The steps of `a + b` are the steps of `a` followed by those of `b`. */
  lemma {:induction false} StepsOfAppend(kind: AssetKind, cat: Catalog, dir: Path, mode: ResizeMethod, a: seq<string>, b: seq<string>)
    ensures StepsOf(kind, cat, dir, mode, a + b) == StepsOf(kind, cat, dir, mode, a) + StepsOf(kind, cat, dir, mode, b)
    decreases |a|
  {
    if a == [] {
      assert a + b == b;
    } else {
      assert (a + b)[0] == a[0] && (a + b)[1..] == a[1..] + b;
      StepsOfAppend(kind, cat, dir, mode, a[1..], b);
    }
  }

  /** The loop breaks exactly at an empty search result. */
  lemma NotFoundIff(kind: AssetKind, cat: Catalog, dir: Path, mode: ResizeMethod, slug: string)
    ensures StepOf(kind, cat, dir, mode, slug) == NotFound <==> cat.search(slug) == []
  {
  }

  /**
   * The loop visits slugs in order and stops at the first one the catalog
   * does not find, or at the first one that raises; every earlier slug was
   * skipped or processed, and a loop that completes visited every slug.
   */
  lemma RunStopsAtFirstMiss(kind: AssetKind, cat: Catalog, dir: Path, mode: ResizeMethod, games: seq<string>)
    ensures var r := RunFetch(kind, cat, dir, mode, games);
      && r.searched <= |games|
      && (r.status == Completed <==> r.searched == |games| && forall j :: 0 <= j < |games| ==> Continues(StepOf(kind, cat, dir, mode, games[j])))
      && (r.status != Completed ==> r.searched >= 1)
      && (r.status == Stopped ==> cat.search(games[r.searched - 1]) == [])
      && (r.status.Crashed? ==> StepOf(kind, cat, dir, mode, games[r.searched - 1]).Failed?)
      && (forall j :: 0 <= j < r.searched - 1 ==> cat.search(games[j]) != [] && Continues(StepOf(kind, cat, dir, mode, games[j])))
  {
    var ss := StepsOf(kind, cat, dir, mode, games);
    RunStepsEnds(ss);
    var r := RunSteps(ss);
    forall j | 0 <= j < |games| ensures ss[j] == StepOf(kind, cat, dir, mode, games[j]) {
      StepsOfAt(kind, cat, dir, mode, games, j);
    }
    if r.status == Stopped {
      NotFoundIff(kind, cat, dir, mode, games[r.searched - 1]);
    }
  }

  /** Once the loop has stopped or raised, slugs after it are never searched for. */
  lemma RunIgnoresRest(kind: AssetKind, cat: Catalog, dir: Path, mode: ResizeMethod, games: seq<string>, rest: seq<string>)
    requires RunFetch(kind, cat, dir, mode, games).status != Completed
    ensures RunFetch(kind, cat, dir, mode, games + rest) == RunFetch(kind, cat, dir, mode, games)
  {
    StepsOfAppend(kind, cat, dir, mode, games, rest);
    RunStepsIgnoresRest(StepsOf(kind, cat, dir, mode, games), StepsOf(kind, cat, dir, mode, rest));
  }

  /** A loop that completes `a` goes on with `b` from where it was. */
  lemma RunAppend(kind: AssetKind, cat: Catalog, dir: Path, mode: ResizeMethod, a: seq<string>, b: seq<string>)
    requires RunFetch(kind, cat, dir, mode, a).status == Completed
    ensures var ra := RunFetch(kind, cat, dir, mode, a);
      RunFetch(kind, cat, dir, mode, a + b) == After(ra.writes, ra.searched, RunFetch(kind, cat, dir, mode, b))
  {
    StepsOfAppend(kind, cat, dir, mode, a, b);
    RunStepsAppend(StepsOf(kind, cat, dir, mode, a), StepsOf(kind, cat, dir, mode, b));
  }

  /**
   * A slug whose image set is `None` is skipped and nothing else changes: the
   * loop writes what it would write without that slug and searches once more.
   */
  lemma NoImagesSkipsOnlyThatSlug(kind: AssetKind, cat: Catalog, dir: Path, mode: ResizeMethod, games: seq<string>, k: nat)
    requires k < |games|
    requires RunFetch(kind, cat, dir, mode, games[..k]).status == Completed
    requires cat.search(games[k]) != [] && ImageSet(kind, cat, cat.search(games[k])[0].id).None?
    ensures var r := RunFetch(kind, cat, dir, mode, games);
      var q := RunFetch(kind, cat, dir, mode, games[..k] + games[k + 1..]);
      r.writes == q.writes && r.status == q.status && r.searched == q.searched + 1
  {
    assert games == games[..k] + games[k..];
    RunAppend(kind, cat, dir, mode, games[..k], games[k..]);
    RunAppend(kind, cat, dir, mode, games[..k], games[k + 1..]);
    var ss := StepsOf(kind, cat, dir, mode, games[k..]);
    assert ss[0] == NoImages;
    assert ss[1..] == StepsOf(kind, cat, dir, mode, games[k + 1..]) by {
      StepsOfAppend(kind, cat, dir, mode, [games[k]], games[k + 1..]);
      assert [games[k]] + games[k + 1..] == games[k..];
    }
    assert StepWrites(NoImages) == [];
    assert [] + RunSteps(ss[1..]).writes == RunSteps(ss[1..]).writes;
  }

  /** An empty (not `None`) image list is unguarded: `[0]` raises and the loop ends there. */
  lemma EmptyImageListRaises(kind: AssetKind, cat: Catalog, dir: Path, mode: ResizeMethod, games: seq<string>)
    requires games != [] && cat.search(games[0]) != []
    requires ImageSet(kind, cat, cat.search(games[0])[0].id) == Some([])
    ensures RunFetch(kind, cat, dir, mode, games) == Outcome([], 1, Crashed(IndexError))
  {
    var ss := StepsOf(kind, cat, dir, mode, games);
    assert ss[0] == Failed(IndexError, []);
  }
  /**
   * Wherever the empty image list falls, the loop raises `IndexError` at that
   * slug: it has searched one more slug than those before it, and has written
   * exactly what the loop over those earlier slugs writes.
   */
  lemma EmptyImageListStopsRun(kind: AssetKind, cat: Catalog, dir: Path, mode: ResizeMethod, games: seq<string>, i: nat)
    requires i < |games|
    requires forall j :: 0 <= j < i ==> Continues(StepOf(kind, cat, dir, mode, games[j]))
    requires cat.search(games[i]) != []
    requires ImageSet(kind, cat, cat.search(games[i])[0].id) == Some([])
    ensures var r := RunFetch(kind, cat, dir, mode, games);
      && r.status == Crashed(IndexError) && r.searched == i + 1
      && r.writes == RunFetch(kind, cat, dir, mode, games[..i]).writes
  {
    var a, b := games[..i], games[i..];
    var sa := StepsOf(kind, cat, dir, mode, a);
    forall j | 0 <= j < i ensures Continues(sa[j]) {
      StepsOfAt(kind, cat, dir, mode, a, j);
    }
    RunStepsAll(sa);
    assert b[0] == games[i];
    EmptyImageListRaises(kind, cat, dir, mode, b);
    assert a + b == games;
    RunAppend(kind, cat, dir, mode, a, b);
    assert RunFetch(kind, cat, dir, mode, a).writes + [] == RunFetch(kind, cat, dir, mode, a).writes;
  }


  /** A step writes only at its slug's asset path. */
  lemma StepWritesPath(kind: AssetKind, cat: Catalog, dir: Path, mode: ResizeMethod, slug: string)
    ensures forall w :: w in StepWrites(StepOf(kind, cat, dir, mode, slug)) ==> AssetPath(kind, dir, slug) == Ok(w.path)
  {
  }

  /** Every write of the loop goes to the asset path of a slug it searched for. */
  lemma RunWritesVisitedPaths(kind: AssetKind, cat: Catalog, dir: Path, mode: ResizeMethod, games: seq<string>)
    ensures var r := RunFetch(kind, cat, dir, mode, games);
      forall k :: 0 <= k < |r.writes| ==>
        exists j :: 0 <= j < r.searched && j < |games| && AssetPath(kind, dir, games[j]) == Ok(r.writes[k].path)
  {
    var ss := StepsOf(kind, cat, dir, mode, games);
    var r := RunSteps(ss);
    RunStepsEnds(ss);
    RunStepsWrites(ss);
    forall k | 0 <= k < |r.writes|
      ensures exists j :: 0 <= j < r.searched && j < |games| && AssetPath(kind, dir, games[j]) == Ok(r.writes[k].path)
    {
      assert WrittenBy(ss, r.searched, r.writes[k]);
      var j :| 0 <= j < r.searched && j < |ss| && r.writes[k] in StepWrites(ss[j]);
      StepsWritePath(kind, cat, dir, mode, games, j, r.writes[k]);
    }
  }

  /**
   * Every write of the loop goes to the asset path of a slug it processed, or
   * of the slug whose exception ended it: a banner whose logo list is empty,
   * or whose logo cannot be shrunk, leaves its raw download behind.
   */
  lemma RunWritesProcessedPaths(kind: AssetKind, cat: Catalog, dir: Path, mode: ResizeMethod, games: seq<string>)
    ensures var r := RunFetch(kind, cat, dir, mode, games);
      forall k :: 0 <= k < |r.writes| ==>
        exists j :: 0 <= j < r.searched && j < |games| && AssetPath(kind, dir, games[j]) == Ok(r.writes[k].path)
          && (StepOf(kind, cat, dir, mode, games[j]).Processed? || (j == r.searched - 1 && r.status.Crashed?))
  {
    var ss := StepsOf(kind, cat, dir, mode, games);
    var r := RunSteps(ss);
    assert r == RunFetch(kind, cat, dir, mode, games);
    RunStepsWritesSettled(ss);
    forall k | 0 <= k < |r.writes|
      ensures exists j :: 0 <= j < r.searched && j < |games| && AssetPath(kind, dir, games[j]) == Ok(r.writes[k].path)
                          && (StepOf(kind, cat, dir, mode, games[j]).Processed? || (j == r.searched - 1 && r.status.Crashed?))
    {
      assert SettledBy(ss, r, r.writes[k]);
      var j :| 0 <= j < r.searched && j < |ss| && r.writes[k] in StepWrites(ss[j])
          && (ss[j].Processed? || (ss[j].Failed? && j == r.searched - 1 && r.status.Crashed?));
      StepsOfAt(kind, cat, dir, mode, games, j);
      StepsWritePath(kind, cat, dir, mode, games, j, r.writes[k]);
    }
  }

  /** A write of step `j` of the loop goes to the asset path of slug `j`. */
  lemma StepsWritePath(kind: AssetKind, cat: Catalog, dir: Path, mode: ResizeMethod, games: seq<string>, j: nat, w: Write)
    requires j < |games| && w in StepWrites(StepsOf(kind, cat, dir, mode, games)[j])
    ensures AssetPath(kind, dir, games[j]) == Ok(w.path)
  {
    StepsOfAt(kind, cat, dir, mode, games, j);
    StepWritesPath(kind, cat, dir, mode, games[j]);
  }

  /**
   * Only files of slugs the loop reached can change: any other path keeps its
   * file, or stays absent.
   */
  lemma FetchLeavesOtherFiles(kind: AssetKind, cat: Catalog, dir: Path, mode: ResizeMethod, games: seq<string>,
                              files: map<Path, Image>, p: Path)
    requires forall j :: 0 <= j < |games| ==> AssetPath(kind, dir, games[j]) != Ok(p)
    ensures var after := ApplyWrites(files, RunFetch(kind, cat, dir, mode, games).writes);
      (p in after <==> p in files) && (p in files ==> after[p] == files[p])
  {
    var r := RunFetch(kind, cat, dir, mode, games);
    RunWritesVisitedPaths(kind, cat, dir, mode, games);
    forall k | 0 <= k < |r.writes| ensures r.writes[k].path != p {
      var j :| 0 <= j < r.searched && j < |games| && AssetPath(kind, dir, games[j]) == Ok(r.writes[k].path);
    }
    ApplyWritesFrame(files, r.writes, p);
  }

  /**
   * A file changes only if a slug the loop processed lives there, or the slug
   * whose exception ended the loop: any other path keeps its file, or stays
   * absent.
   */
  lemma FetchChangesOnlyProcessed(kind: AssetKind, cat: Catalog, dir: Path, mode: ResizeMethod, games: seq<string>,
                                  files: map<Path, Image>, p: Path)
    requires forall j :: 0 <= j < |games| && AssetPath(kind, dir, games[j]) == Ok(p) ==>
      !StepOf(kind, cat, dir, mode, games[j]).Processed?
    requires RunFetch(kind, cat, dir, mode, games).status.Crashed? ==>
      forall j :: 0 <= j < |games| && j == RunFetch(kind, cat, dir, mode, games).searched - 1 ==>
        AssetPath(kind, dir, games[j]) != Ok(p)
    ensures var after := ApplyWrites(files, RunFetch(kind, cat, dir, mode, games).writes);
      (p in after <==> p in files) && (p in files ==> after[p] == files[p])
  {
    var r := RunFetch(kind, cat, dir, mode, games);
    RunWritesProcessedPaths(kind, cat, dir, mode, games);
    forall k | 0 <= k < |r.writes| ensures r.writes[k].path != p {
      var j :| 0 <= j < r.searched && j < |games| && AssetPath(kind, dir, games[j]) == Ok(r.writes[k].path)
          && (StepOf(kind, cat, dir, mode, games[j]).Processed? || (j == r.searched - 1 && r.status.Crashed?));
    }
    ApplyWritesFrame(files, r.writes, p);
  }

  /**
   * A processed slug writes its asset file twice, in this order: the
   * downloaded image (the first resource of its set) at the path the scanner
   * checks, then the processed image over it.
   */
  lemma ProcessedWritesTwice(kind: AssetKind, cat: Catalog, dir: Path, mode: ResizeMethod, slug: string)
    requires StepOf(kind, cat, dir, mode, slug).Processed?
    ensures var s := StepOf(kind, cat, dir, mode, slug);
      var res := cat.search(slug);
      && res != []
      && ImageSet(kind, cat, res[0].id).Some? && ImageSet(kind, cat, res[0].id).value != []
      && s.downloaded == cat.download(ImageSet(kind, cat, res[0].id).value[0].url)
      && AssetPath(kind, dir, slug) == Ok(s.path)
      && StepWrites(s) == [Write(s.path, s.downloaded), Write(s.path, s.saved)]
  {
  }

  /**
   * The saved image has the size the resize method promises: STRETCH and CROP
   * give Lutris' size for covers and banners, NONE keeps the downloaded size,
   * and icons fit 128x128 without being enlarged, whatever the method.
   */
  lemma SavedImageSize(kind: AssetKind, cat: Catalog, dir: Path, mode: ResizeMethod, slug: string)
    requires StepOf(kind, cat, dir, mode, slug).Processed?
    ensures var s := StepOf(kind, cat, dir, mode, slug);
      && (kind == Covers && mode != NoResize ==> s.saved.width == CoverWidth && s.saved.height == CoverHeight)
      && (kind == Banners && mode != NoResize ==> s.saved.width == BannerWidth && s.saved.height == BannerHeight)
      && (kind != Icons && mode == NoResize ==> s.saved.width == s.downloaded.width && s.saved.height == s.downloaded.height)
      && (kind == Icons ==> s.saved.width <= IconSize && s.saved.height <= IconSize
                            && s.saved.width <= s.downloaded.width && s.saved.height <= s.downloaded.height)
  {
    var s := StepOf(kind, cat, dir, mode, slug);
    var id := cat.search(slug)[0].id;
    if kind == Icons {
      IconFits(s.downloaded);
    } else if kind == Banners {
      match cat.logos(id)
      case None =>
      case Some(ls) =>
        ComposeBannerCentresLogo(s.downloaded, cat.download(ls[0].url));
    }
  }

  /** Icons ignore the resize method. */
  lemma IconsIgnoreResize(cat: Catalog, dir: Path, m1: ResizeMethod, m2: ResizeMethod, games: seq<string>)
    ensures RunFetch(Icons, cat, dir, m1, games) == RunFetch(Icons, cat, dir, m2, games)
  {
    var a, b := StepsOf(Icons, cat, dir, m1, games), StepsOf(Icons, cat, dir, m2, games);
    forall j | 0 <= j < |games| ensures a[j] == b[j] {
      StepsOfAt(Icons, cat, dir, m1, games, j);
      StepsOfAt(Icons, cat, dir, m2, games, j);
    }
    assert a == b;
  }

  /** A banner without a logo is still resized and saved, undecorated. */
  lemma MissingLogoStillSaved(cat: Catalog, dir: Path, mode: ResizeMethod, slug: string)
    requires cat.search(slug) != []
    requires var id := cat.search(slug)[0].id;
      cat.heroes(id).Some? && cat.heroes(id).value != [] && cat.logos(id).None?
    requires AssetPath(Banners, dir, slug).Ok?
    ensures var id := cat.search(slug)[0].id;
      var raw := cat.download(cat.heroes(id).value[0].url);
      StepOf(Banners, cat, dir, mode, slug) == Processed(AssetPath(Banners, dir, slug).value, raw, FitBanner(raw, mode))
  {
  }

  /**
   * A banner whose post-processing raises (an empty logo list, or a banner
   * one pixel wide that leaves no room for the logo) has already written its
   * raw download: the asset file holds the unprocessed image and the loop
   * ends with the exception.
   */
  lemma BannerCrashKeepsDownload(cat: Catalog, dir: Path, mode: ResizeMethod, slug: string, files: map<Path, Image>)
    requires cat.search(slug) != []
    requires var id := cat.search(slug)[0].id;
      cat.heroes(id).Some? && cat.heroes(id).value != [] && cat.logos(id).Some?
    requires AssetPath(Banners, dir, slug).Ok?
    requires var id := cat.search(slug)[0].id;
      cat.logos(id).value == [] || cat.download(cat.heroes(id).value[0].url).width == 1
    ensures var id := cat.search(slug)[0].id;
      var raw := cat.download(cat.heroes(id).value[0].url);
      var p := AssetPath(Banners, dir, slug).value;
      var r := RunFetch(Banners, cat, dir, mode, [slug]);
      && r.status.Crashed? && r.writes == [Write(p, raw)]
      && p in ApplyWrites(files, r.writes) && ApplyWrites(files, r.writes)[p] == raw
  {
    var id := cat.search(slug)[0].id;
    var raw := cat.download(cat.heroes(id).value[0].url);
    var ls := cat.logos(id).value;
    if ls != [] {
      LogoBoundZero(raw);
      ComposeBannerCentresLogo(raw, cat.download(ls[0].url));
    }
    var p := AssetPath(Banners, dir, slug).value;
    assert StepsOf(Banners, cat, dir, mode, [slug]) == [StepOf(Banners, cat, dir, mode, slug)];
    assert StepOf(Banners, cat, dir, mode, slug).Failed?;
    assert ApplyWrites(files, [Write(p, raw)]) == ApplyWrites(files[p := raw], []);
  }

  /** A slug the loop processed has its asset file afterwards: a rerun no longer finds it missing. */
  lemma ProcessedFileExists(kind: AssetKind, cat: Catalog, dir: Path, mode: ResizeMethod, games: seq<string>,
                            files: map<Path, Image>, j: nat)
    requires j < |games| && j < RunFetch(kind, cat, dir, mode, games).searched
    requires StepOf(kind, cat, dir, mode, games[j]).Processed?
    ensures AssetPath(kind, dir, games[j]).Ok?
    ensures AssetPath(kind, dir, games[j]).value in ApplyWrites(files, RunFetch(kind, cat, dir, mode, games).writes)
  {
    var ss := StepsOf(kind, cat, dir, mode, games);
    var r := RunSteps(ss);
    StepsOfAt(kind, cat, dir, mode, games, j);
    ProcessedWritesTwice(kind, cat, dir, mode, games[j]);
    RunStepsWritesProcessed(ss, j);
    ApplyWritesKeys(files, r.writes);
  }
}
