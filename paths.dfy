/**
 * The part of Python's pathlib (POSIX flavour) that the scanner and the
 * fetchers use: `dir.joinpath(name).with_suffix(ext)` on an absolute
 * directory, and the asset paths built from it.
 */
module Paths {
  import opened Wrappers
  import opened Enums

  /** An absolute path as pathlib keeps it: the components below the root `/`. */
  datatype Path = Path(parts: seq<string>)

  /** `with_suffix` raises ValueError on a path whose name is empty, i.e. on `/`. */
  datatype PathError = EmptyName

  /** A component pathlib keeps after parsing: not empty, not ".", no separator. */
  predicate IsComponent(c: string)
  {
    c != "" && c != "." && '/' !in c
  }

  /** A slug of the usual shape (letters, digits, dashes): one component without a dot. */
  predicate IsPlainSlug(s: string)
  {
    IsComponent(s) && '.' !in s
  }

  /** The segment `seg` as pathlib keeps it: empty and "." segments vanish. */
  function Keep(seg: string): (r: seq<string>)
    requires '/' !in seg
    ensures |r| <= 1
    ensures IsComponent(seg) <==> r == [seg]
  {
    if seg == "" || seg == "." then [] else [seg]
  }

  /** Splits `s` at every '/', `cur` being the segment read so far. */
  function Split(s: string, cur: string): seq<string>
    requires '/' !in cur
    decreases |s|
  {
    if s == [] then Keep(cur)
    else if s[0] == '/' then Keep(cur) + Split(s[1..], "")
    else Split(s[1..], cur + [s[0]])
  }

  /** The components pathlib parses out of the string `s`. */
  function Components(s: string): seq<string>
  {
    Split(s, "")
  }

  /** `dir.joinpath(s)`: an absolute `s` replaces the directory, a relative one extends it. */
  function Join(dir: Path, s: string): Path
  {
    if |s| > 0 && s[0] == '/' then Path(Components(s)) else Path(dir.parts + Components(s))
  }

  /** `PurePath.name`: the final component, empty for the root. */
  function Name(p: Path): string
  {
    if p.parts == [] then "" else p.parts[|p.parts| - 1]
  }

  /** `str.rfind('.')`: the index of the last dot in `name`, or -1. */
  function LastDot(name: string): (i: int)
    ensures -1 <= i < |name|
  {
    if name == [] then -1
    else if name[|name| - 1] == '.' then |name| - 1
    else LastDot(name[..|name| - 1])
  }

  /** `PurePath.suffix`: from the last dot on, unless that dot starts or ends the name. */
  function Suffix(name: string): string
  {
    var i := LastDot(name);
    if 0 < i < |name| - 1 then name[i..] else ""
  }

  /** `PurePath.stem`: the name without its suffix. */
  function Stem(name: string): string
  {
    name[..|name| - |Suffix(name)|]
  }

  /** A suffix `with_suffix` accepts and that is not empty. */
  predicate ValidSuffix(ext: string)
  {
    |ext| > 1 && ext[0] == '.' && '/' !in ext
  }

  /** Whether `s` ends with `t`. */
  predicate EndsWith(s: string, t: string)
  {
    |t| <= |s| && s[|s| - |t|..] == t
  }

  /**
   * `p.with_suffix(ext)`: the final component's suffix, if any, is replaced by
   * `ext`; it raises on a path without a name. The directories above stay.
   */
  function WithSuffix(p: Path, ext: string): Result<Path, PathError>
    requires ValidSuffix(ext)
  {
    if p.parts == [] then Err(EmptyName)
    else Ok(Path(p.parts[..|p.parts| - 1] + [Stem(Name(p)) + ext]))
  }

  const ImageSuffix := ".jpg"
  const IconSuffix := ".png"
  const IconPrefix := "lutris_"

  /**
   * Where an asset of `kind` for `slug` lives under `dir`: `{dir}/{slug}.jpg`
   * for covers and banners, `{dir}/lutris_{slug}.png` for icons, as pathlib
   * builds them. The scanner and the fetchers both use this one function.
   */
  function AssetPath(kind: AssetKind, dir: Path, slug: string): Result<Path, PathError>
  {
    if kind == Icons then WithSuffix(Join(dir, IconPrefix + slug), IconSuffix)
    else WithSuffix(Join(dir, slug), ImageSuffix)
  }

  /** The file name the layout promises for `slug`. */
  function FileName(kind: AssetKind, slug: string): string
  {
    if kind == Icons then IconPrefix + slug + IconSuffix else slug + ImageSuffix
  }

  /** A relative `s` extends `dir`: the directory's components come first. */
  lemma JoinKeepsDir(dir: Path, s: string)
    requires !(|s| > 0 && s[0] == '/')
    ensures |Join(dir, s).parts| >= |dir.parts| && Join(dir, s).parts[..|dir.parts|] == dir.parts
  {
    assert (dir.parts + Components(s))[..|dir.parts|] == dir.parts;
  }

  /**
   * `with_suffix` raises exactly on a path without a name; otherwise it keeps
   * the directories above, and the new name is the old name's stem followed
   * by `ext`.
   */
  lemma WithSuffixSpec(p: Path, ext: string)
    requires ValidSuffix(ext)
    ensures WithSuffix(p, ext).Err? <==> p.parts == []
    ensures WithSuffix(p, ext).Ok? ==>
      var q := WithSuffix(p, ext).value;
      |q.parts| == |p.parts| && q.parts[..|p.parts| - 1] == p.parts[..|p.parts| - 1]
      && Name(q) == Stem(Name(p)) + ext && EndsWith(Name(q), ext)
  {
    if p.parts != [] {
      var n := Stem(Name(p)) + ext;
      assert n[|n| - |ext|..] == ext;
      assert (p.parts[..|p.parts| - 1] + [n])[..|p.parts| - 1] == p.parts[..|p.parts| - 1];
    }
  }

  /** An icon's path always builds, and every asset file ends with its kind's suffix. */
  lemma AssetPathSuffix(kind: AssetKind, dir: Path, slug: string)
    ensures kind == Icons ==> AssetPath(kind, dir, slug).Ok?
    ensures AssetPath(kind, dir, slug).Ok? ==>
      EndsWith(Name(AssetPath(kind, dir, slug).value), if kind == Icons then IconSuffix else ImageSuffix)
  {
    var ext := if kind == Icons then IconSuffix else ImageSuffix;
    var s := if kind == Icons then IconPrefix + slug else slug;
    if kind == Icons {
      IconComponentsNonEmpty(slug);
      assert s[0] == 'l';
    }
    WithSuffixSpec(Join(dir, s), ext);
  }

  /** Every component `Split` yields is one pathlib keeps. */
  lemma {:induction false} SplitComponents(s: string, cur: string)
    requires '/' !in cur
    ensures forall c :: c in Split(s, cur) ==> IsComponent(c)
    decreases |s|
  {
    if s != [] {
      if s[0] == '/' {
        SplitComponents(s[1..], "");
      } else {
        SplitComponents(s[1..], cur + [s[0]]);
      }
    }
  }

  /** `LastDot` finds a dot, and no dot follows it. */
  lemma {:induction false} LastDotIsLast(name: string)
    ensures LastDot(name) >= 0 ==> name[LastDot(name)] == '.'
    ensures forall j :: LastDot(name) < j < |name| ==> name[j] != '.'
    decreases |name|
  {
    if name != [] && name[|name| - 1] != '.' {
      var init := name[..|name| - 1];
      LastDotIsLast(init);
      assert forall j :: 0 <= j < |init| ==> init[j] == name[j];
    }
  }

  lemma {:induction false} SplitWithoutSeparator(s: string, cur: string)
    requires '/' !in s && '/' !in cur
    ensures Split(s, cur) == Keep(cur + s)
    decreases |s|
  {
    if s == [] {
      assert cur + s == cur;
    } else {
      assert cur + s == (cur + [s[0]]) + s[1..];
      SplitWithoutSeparator(s[1..], cur + [s[0]]);
    }
  }

  /** A single component parses to itself. */
  lemma ComponentsOfComponent(c: string)
    requires IsComponent(c)
    ensures Components(c) == [c]
  {
    SplitWithoutSeparator(c, "");
    assert "" + c == c;
  }

  /** A name without a dot has no suffix: `with_suffix` only appends. */
  lemma StemWithoutDot(name: string)
    requires '.' !in name
    ensures Suffix(name) == "" && Stem(name) == name
  {
    LastDotIsLast(name);
    assert LastDot(name) == -1;
  }

  /** With the last dot at `|a|` and something after it, the stem is `a`. */
  lemma StemOfDotted(a: string, t: string)
    requires a != [] && t != [] && '.' !in t
    ensures Stem(a + "." + t) == a
  {
    var name := a + "." + t;
    assert name[|a|] == '.';
    forall j | |a| < j < |name| ensures name[j] != '.' {
      assert name[j] == t[j - |a| - 1];
    }
    LastDotIsLast(name);
    assert LastDot(name) == |a|;
    assert Suffix(name) == name[|a|..];
    assert name[..|name| - |Suffix(name)|] == a;
  }

  /** For a plain slug the asset path is `dir` plus the file name of the layout. */
  lemma PlainSlugPath(kind: AssetKind, dir: Path, slug: string)
    requires IsPlainSlug(slug)
    ensures AssetPath(kind, dir, slug) == Ok(Path(dir.parts + [FileName(kind, slug)]))
  {
    var name := if kind == Icons then IconPrefix + slug else slug;
    if kind == Icons {
      IconNamePlain(slug);
    }
    StemWithoutDot(name);
    ComponentPath(dir, name, if kind == Icons then IconSuffix else ImageSuffix);
  }

  /** "lutris_" followed by a plain slug is a plain name too. */
  lemma IconNamePlain(slug: string)
    requires IsPlainSlug(slug)
    ensures IsPlainSlug(IconPrefix + slug)
  {
    var name := IconPrefix + slug;
    forall k | 0 <= k < |name| ensures name[k] != '/' && name[k] != '.' {
      if k >= |IconPrefix| { assert name[k] == slug[k - |IconPrefix|]; }
    }
  }

  /** Joining one component and replacing its suffix gives `dir` plus the new name. */
  lemma ComponentPath(dir: Path, name: string, ext: string)
    requires IsComponent(name) && ValidSuffix(ext)
    ensures WithSuffix(Join(dir, name), ext) == Ok(Path(dir.parts + [Stem(name) + ext]))
  {
    ComponentsOfComponent(name);
    assert name[0] != '/';
    var joined := Path(dir.parts + [name]);
    assert Join(dir, name) == joined;
    assert joined.parts[..|joined.parts| - 1] == dir.parts;
  }

  /** Different plain slugs never share an asset file. */
  lemma PlainSlugsDistinctPaths(kind: AssetKind, dir: Path, s1: string, s2: string)
    requires IsPlainSlug(s1) && IsPlainSlug(s2) && s1 != s2
    ensures AssetPath(kind, dir, s1) != AssetPath(kind, dir, s2)
  {
    PlainSlugPath(kind, dir, s1);
    PlainSlugPath(kind, dir, s2);
    SlugOfFileName(kind, s1);
    SlugOfFileName(kind, s2);
    assert (dir.parts + [FileName(kind, s1)])[|dir.parts|] == FileName(kind, s1);
    assert (dir.parts + [FileName(kind, s2)])[|dir.parts|] == FileName(kind, s2);
  }

  /** The slug can be read back from the file name of the layout. */
  lemma SlugOfFileName(kind: AssetKind, slug: string)
    ensures var n := FileName(kind, slug);
      kind == Icons ==> n[|IconPrefix|..|n| - |IconSuffix|] == slug
    ensures var n := FileName(kind, slug);
      kind != Icons ==> n[..|n| - |ImageSuffix|] == slug
  {
  }

  /**
   * `with_suffix` replaces the slug's own dotted tail: `a.t` is stored in the
   * same file as `a`, so two slugs can share one asset file.
   */
  lemma DottedSlugSharesFile(kind: AssetKind, dir: Path, a: string, t: string)
    requires IsPlainSlug(a) && IsPlainSlug(t)
    ensures AssetPath(kind, dir, a + "." + t) == AssetPath(kind, dir, a)
  {
    if kind == Icons {
      var stem := IconPrefix + a;
      IconNamePlain(a);
      assert IconPrefix + (a + "." + t) == stem + "." + t;
      DottedStem(stem, t);
      StemWithoutDot(stem);
      ComponentPath(dir, stem + "." + t, IconSuffix);
      ComponentPath(dir, stem, IconSuffix);
    } else {
      DottedStem(a, t);
      StemWithoutDot(a);
      ComponentPath(dir, a + "." + t, ImageSuffix);
      ComponentPath(dir, a, ImageSuffix);
    }
  }

  /** A plain name, a dot and a plain tail form one component whose stem is the name. */
  lemma DottedStem(stem: string, t: string)
    requires IsPlainSlug(stem) && IsPlainSlug(t)
    ensures IsComponent(stem + "." + t) && Stem(stem + "." + t) == stem
  {
    assert '/' !in stem + "." + t;
    StemOfDotted(stem, t);
  }

  /**
   * A slug that is not absolute builds its asset path without raising (an icon
   * always, a cover or banner when the directory or the slug has a component).
   * When the slug has a component (an icon's always does), the file lies below
   * `dir`; a slug without one names `dir` itself, suffixed.
   */
  lemma AssetPathUnderDir(kind: AssetKind, dir: Path, slug: string)
    requires kind == Icons || slug == [] || slug[0] != '/'
    requires dir.parts != [] || kind == Icons || Components(slug) != []
    ensures AssetPath(kind, dir, slug).Ok?
    ensures var p := AssetPath(kind, dir, slug).value;
      |p.parts| > |dir.parts| || (|p.parts| == |dir.parts| && Components(slug) == [])
    ensures kind == Icons || Components(slug) != [] ==>
      var p := AssetPath(kind, dir, slug).value;
      |p.parts| > |dir.parts| && p.parts[..|dir.parts|] == dir.parts
    ensures kind != Icons && Components(slug) == [] ==>
      var p := AssetPath(kind, dir, slug).value;
      && |p.parts| == |dir.parts| && p.parts[..|dir.parts| - 1] == dir.parts[..|dir.parts| - 1]
      && Name(p) == Stem(Name(dir)) + ImageSuffix
  {
    var s := if kind == Icons then IconPrefix + slug else slug;
    assert s == [] || s[0] != '/' by { if kind == Icons { assert s[0] == 'l'; } }
    assert Join(dir, s) == Path(dir.parts + Components(s));
    if kind != Icons && Components(slug) == [] {
      assert Join(dir, s) == dir;
      WithSuffixSpec(dir, ImageSuffix);
    }
    if kind == Icons {
      IconComponentsNonEmpty(slug);
    }
  }

  /** "lutris_" starts a component, so an icon's joined path always has a name. */
  lemma IconComponentsNonEmpty(slug: string)
    ensures Components(IconPrefix + slug) != []
  {
    SplitKeepsStart(IconPrefix + slug, "", 7);
  }

  /** If the first `n` characters of `s` are no separator, the first component is non-empty. */
  lemma {:induction false} SplitKeepsStart(s: string, cur: string, n: nat)
    requires '/' !in cur
    requires n <= |s| && forall k :: 0 <= k < n ==> s[k] != '/'
    requires |cur| + n >= 2
    ensures Split(s, cur) != []
    decreases |s|
  {
    if s == [] {
      assert cur != "" && cur != ".";
    } else if s[0] == '/' {
      assert n == 0;
      assert Keep(cur) != [];
    } else if n == 0 {
      SplitKeepsStart(s[1..], cur + [s[0]], 0);
    } else {
      SplitKeepsStart(s[1..], cur + [s[0]], n - 1);
    }
  }
}
