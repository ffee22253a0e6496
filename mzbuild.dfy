/**
 * The text and bit helpers of the mzbuild image builder
 * (misc/python/materialize/mzbuild.py): execute-bit arithmetic, package
 * names in Cargo package ids, the Cargo flag string, image-name checks,
 * `MZFROM` lines, Docker names and builder-path rebasing.
 */
module Mzbuild {
  import opened Wrappers
  import opened Sorting

  // ---------------------------------------------------------------------
  // chmod_x
  // ---------------------------------------------------------------------

  /** Octal 444: the three read bits. */
  const READ_BITS: bv32 := 0x124
  /** Octal 111: the three execute bits. */
  const EXEC_BITS: bv32 := 0x49

  /**
   * `mode | ((mode & 0o444) >> 2)`: each read bit is copied onto the
   * execute bit of the same class (owner, group, other); nothing is cleared
   * and no bit other than an execute bit is touched.
   */
  function ChmodX(mode: bv32): (r: bv32)
    ensures r & mode == mode
  {
    mode | ((mode & READ_BITS) >> 2)
  }

  /** Only execute bits change. */
  lemma ChmodXOnlyExecute(mode: bv32)
    ensures ChmodX(mode) & !EXEC_BITS == mode & !EXEC_BITS
  {
  }

  /** The owner, group and other execute bits are set exactly when they were or the matching read bit is. */
  lemma ChmodXSetsExecute(mode: bv32)
    ensures (ChmodX(mode) & 0x40 != 0) <==> (mode & 0x40 != 0 || mode & 0x100 != 0)
    ensures (ChmodX(mode) & 0x8 != 0) <==> (mode & 0x8 != 0 || mode & 0x20 != 0)
    ensures (ChmodX(mode) & 0x1 != 0) <==> (mode & 0x1 != 0 || mode & 0x4 != 0)
  {
  }

  /** Marking a file executable twice is the same as marking it once. */
  lemma ChmodXIdempotent(mode: bv32)
    ensures ChmodX(ChmodX(mode)) == ChmodX(mode)
  {
  }

  // ---------------------------------------------------------------------
  // Splitting strings
  // ---------------------------------------------------------------------

  /** `s.split(c)[0]`: the text before the first `c`. */
  function FirstSegment(s: string, c: char): (r: string)
    ensures c !in r
    ensures |r| <= |s| && r == s[..|r|]
    ensures r == s || s[|r|] == c
  {
    if s == [] then []
    else if s[0] == c then []
    else [s[0]] + FirstSegment(s[1..], c)
  }

  /** `s.split(c)[-1]`: the text after the last `c`. */
  function LastSegment(s: string, c: char): (r: string)
    ensures c !in r
    ensures |r| <= |s| && r == s[|s| - |r|..]
    ensures r == s || s[|s| - |r| - 1] == c
  {
    if s == [] then []
    else if s[|s| - 1] == c then []
    else LastSegment(s[..|s| - 1], c) + [s[|s| - 1]]
  }

  /**
   * The package name inside a Cargo package id (mzbuild.py:450-454): with
   * an "@", the text after the last "#" of what precedes the first "@";
   * otherwise the last "/" segment of what precedes the first "#".
   */
  function PackageName(packageId: string): (r: string)
    ensures '#' !in r && '@' !in r
    ensures '@' !in packageId ==> '/' !in r
  {
    if '@' in packageId then LastSegment(FirstSegment(packageId, '@'), '#')
    else LastSegment(FirstSegment(packageId, '#'), '/')
  }

  /** The first segment ends at the first separator. */
  lemma {:induction false} FirstSegmentAt(s: string, c: char, head: string, tail: string)
    requires s == head + [c] + tail && c !in head
    ensures FirstSegment(s, c) == head
  {
    if head != [] {
      assert s[1..] == head[1..] + [c] + tail;
      FirstSegmentAt(s[1..], c, head[1..], tail);
    }
  }

  /** The last segment starts after the last separator. */
  lemma LastSegmentAt(s: string, c: char, head: string, tail: string)
    requires s == head + [c] + tail && c !in tail
    ensures LastSegment(s, c) == tail
  {
    LastSegmentAfter(head + [c], tail, c);
    assert s == (head + [c]) + tail;
  }

  /**
   * An id with a version after "@" names the crate between the last "#"
   * and the "@" (mzbuild.py:446-448, as in
   * `registry+https://github.com/rust-lang/crates.io-index#num-rational@0.4.0`).
   */
  lemma PackageNameOfVersionedId(source: string, name: string, version: string)
    requires '@' !in source && '@' !in name && '#' !in name
    ensures PackageName(source + "#" + name + "@" + version) == name
  {
    var s := source + "#" + name + "@" + version;
    var before := source + "#" + name;
    assert s == before + ['@'] + version;
    assert s[|before|] == '@';
    FirstSegmentAt(s, '@', before, version);
    assert before == source + ['#'] + name;
    LastSegmentAt(before, '#', source, name);
  }

  /**
   * An id without "@" names the last directory before "#"
   * (mzbuild.py:449, as in `file:///path/to/my-package#0.1.0`).
   */
  lemma PackageNameOfPathId(dirs: string, name: string, version: string)
    requires '@' !in dirs && '@' !in name && '@' !in version
    requires '#' !in dirs && '#' !in name && '/' !in name
    ensures PackageName(dirs + "/" + name + "#" + version) == name
  {
    var s := dirs + "/" + name + "#" + version;
    var before := dirs + "/" + name;
    assert s == before + ['#'] + version;
    assert '@' !in s by {
      assert forall i :: 0 <= i < |s| ==> s[i] == '/' || s[i] == '#' || s[i] in dirs || s[i] in name || s[i] in version;
    }
    FirstSegmentAt(s, '#', before, version);
    assert before == dirs + ['/'] + name;
    LastSegmentAt(before, '/', dirs, name);
  }

  // ---------------------------------------------------------------------
  // CargoPreImage.extra
  // ---------------------------------------------------------------------

  /**
   * The sanitizer choices. The enum itself is defined outside mzbuild.py and
   * is not part of this model; mzbuild.py:895 names address, thread, leak,
   * memory and none, and the other variants are assumed.
   */
  datatype Sanitizer = Address | Hwaddress | Cfi | Thread | Leak | Memory | NoSanitizer

  /** The sanitizer's enum value, as spelled on the command line. */
  function SanitizerValue(s: Sanitizer): string
  {
    match s
    case Address => "address"
    case Hwaddress => "hwaddress"
    case Cfi => "cfi"
    case Thread => "thread"
    case Leak => "leak"
    case Memory => "memory"
    case NoSanitizer => "none"
  }

  /** `list += str` extends the list with the string's characters, one string each. */
  function Characters(s: string): (r: seq<string>)
    ensures |r| == |s|
    ensures forall i :: 0 <= i < |s| ==> r[i] == [s[i]]
  {
    seq(|s|, i requires 0 <= i < |s| => [s[i]])
  }

  /** The summed length of the strings. */
  function TotalLength(xs: seq<string>): nat
  {
    if xs == [] then 0 else |xs[0]| + TotalLength(xs[1..])
  }

  /** `sep.join(xs)`: every string, with one separator between each two. */
  function Join(xs: seq<string>, sep: string): (r: string)
    ensures |r| == TotalLength(xs) + (if xs == [] then 0 else (|xs| - 1) * |sep|)
    ensures xs != [] ==> |xs[0]| <= |r| && r[..|xs[0]|] == xs[0]
  {
    if xs == [] then ""
    else if |xs| == 1 then xs[0]
    else xs[0] + sep + Join(xs[1..], sep)
  }

  /** The flags `extra` collects, before sorting. */
  function Flags(releaseMode: bool, coverage: bool, sanitizer: Sanitizer): seq<string>
  {
    (if releaseMode then Characters("release") else [])
    + (if coverage then Characters("coverage") else [])
    + (if sanitizer != NoSanitizer then Characters(SanitizerValue(sanitizer)) else [])
  }

  /** What `extra` returns: some sorted arrangement of the flags, joined by ",". */
  ghost predicate ExtraResult(releaseMode: bool, coverage: bool, sanitizer: Sanitizer, r: string)
  {
    exists flags: seq<string> {:trigger Join(flags, ",")} ::
      Sorted(flags) && multiset(flags) == multiset(Flags(releaseMode, coverage, sanitizer)) && r == Join(flags, ",")
  }

  /**
   * `CargoPreImage.extra` as written (mzbuild.py:248-259): the flag list is
   * extended with single characters, sorted, and joined by ",".
   */
  method Extra(releaseMode: bool, coverage: bool, sanitizer: Sanitizer) returns (r: string)
    ensures ExtraResult(releaseMode, coverage, sanitizer, r)
  {
    var flags: seq<string> := [];
    if releaseMode {
      flags := flags + Characters("release");
    }
    if coverage {
      flags := flags + Characters("coverage");
    }
    if sanitizer != NoSanitizer {
      flags := flags + Characters(SanitizerValue(sanitizer));
    }
    assert flags == Flags(releaseMode, coverage, sanitizer);
    var sorted := Sort(flags);
    r := Join(sorted, ",");
    ExtraResultOf(releaseMode, coverage, sanitizer, sorted, r);
  }

  lemma ExtraResultOf(releaseMode: bool, coverage: bool, sanitizer: Sanitizer, sorted: seq<string>, r: string)
    requires Sorted(sorted) && multiset(sorted) == multiset(Flags(releaseMode, coverage, sanitizer))
    requires r == Join(sorted, ",")
    ensures ExtraResult(releaseMode, coverage, sanitizer, r)
  {
  }

  /** The result of `extra` is determined by the configuration. */
  lemma ExtraDeterministic(releaseMode: bool, coverage: bool, sanitizer: Sanitizer, r1: string, r2: string)
    requires ExtraResult(releaseMode, coverage, sanitizer, r1)
    requires ExtraResult(releaseMode, coverage, sanitizer, r2)
    ensures r1 == r2
  {
    var f1: seq<string> :| Sorted(f1) && multiset(f1) == multiset(Flags(releaseMode, coverage, sanitizer)) && r1 == Join(f1, ",");
    var f2: seq<string> :| Sorted(f2) && multiset(f2) == multiset(Flags(releaseMode, coverage, sanitizer)) && r2 == Join(f2, ",");
    SortedUnique(f1, f2);
  }

  /** Joining one-character strings doubles the length, less one separator. */
  lemma {:induction false} JoinSinglesLength(xs: seq<string>)
    requires forall i :: 0 <= i < |xs| ==> |xs[i]| == 1
    ensures |Join(xs, ",")| == if xs == [] then 0 else 2 * |xs| - 1
  {
    if |xs| > 1 {
      JoinSinglesLength(xs[1..]);
    }
  }

  /**
   * A release build without coverage or sanitizer yields the seven letters
   * of "release" separated by commas, never the word "release".
   */
  lemma ExtraSplitsWords(r: string)
    requires ExtraResult(true, false, NoSanitizer, r)
    ensures |r| == 13 && r != "release"
  {
    var flags := Flags(true, false, NoSanitizer);
    var f: seq<string> :| Sorted(f) && multiset(f) == multiset(flags) && r == Join(f, ",");
    assert |flags| == 7;
    assert |f| == 7 by {
      assert |multiset(f)| == |f| && |multiset(flags)| == |flags|;
    }
    forall i | 0 <= i < |f|
      ensures |f[i]| == 1
    {
      assert f[i] in multiset(flags);
    }
    JoinSinglesLength(f);
  }

  /** What `extra` evidently means: the flag words themselves, sorted and joined by ",". */
  function FlagWords(releaseMode: bool, coverage: bool, sanitizer: Sanitizer): seq<string>
  {
    (if releaseMode then ["release"] else [])
    + (if coverage then ["coverage"] else [])
    + (if sanitizer != NoSanitizer then [SanitizerValue(sanitizer)] else [])
  }

  ghost predicate ExtraWordsResult(releaseMode: bool, coverage: bool, sanitizer: Sanitizer, r: string)
  {
    exists flags: seq<string> {:trigger Join(flags, ",")} ::
      Sorted(flags) && multiset(flags) == multiset(FlagWords(releaseMode, coverage, sanitizer)) && r == Join(flags, ",")
  }

  /** `extra` with each flag appended as one word. */
  method ExtraWords(releaseMode: bool, coverage: bool, sanitizer: Sanitizer) returns (r: string)
    ensures ExtraWordsResult(releaseMode, coverage, sanitizer, r)
  {
    var flags: seq<string> := [];
    if releaseMode {
      flags := flags + ["release"];
    }
    if coverage {
      flags := flags + ["coverage"];
    }
    if sanitizer != NoSanitizer {
      flags := flags + [SanitizerValue(sanitizer)];
    }
    assert flags == FlagWords(releaseMode, coverage, sanitizer);
    var sorted := Sort(flags);
    r := Join(sorted, ",");
    assert Sorted(sorted) && multiset(sorted) == multiset(FlagWords(releaseMode, coverage, sanitizer)) && r == Join(sorted, ",");
  }

  /** With whole words, a release build without coverage or sanitizer yields "release". */
  lemma ExtraWordsOfRelease(r: string)
    requires ExtraWordsResult(true, false, NoSanitizer, r)
    ensures r == "release"
  {
    var words := FlagWords(true, false, NoSanitizer);
    var f: seq<string> :| Sorted(f) && multiset(f) == multiset(words) && r == Join(f, ",");
    assert words == ["release"];
    assert |f| == 1 by {
      assert |multiset(f)| == |f| && |multiset(words)| == |words|;
    }
    assert f[0] in multiset(words);
  }

  // ---------------------------------------------------------------------
  // Image names and Dockerfiles
  // ---------------------------------------------------------------------

  /** The characters an image name may hold: `[A-Za-z0-9-]`. */
  predicate NameChar(c: char)
  {
    ('A' <= c <= 'Z') || ('a' <= c <= 'z') || ('0' <= c <= '9') || c == '-'
  }

  /** `re.search(r"[^A-Za-z0-9\-]", name)`: the first disallowed character. */
  function FindInvalid(name: string): (r: Option<nat>)
    ensures r.None? <==> forall i :: 0 <= i < |name| ==> NameChar(name[i])
    ensures r.Some? ==> r.value < |name| && !NameChar(name[r.value])
                        && forall i :: 0 <= i < r.value ==> NameChar(name[i])
  {
    if name == [] then None
    else if !NameChar(name[0]) then Some(0)
    else
      match FindInvalid(name[1..])
      case None => None
      case Some(i) => Some(i + 1)
  }

  /** The image-name check of `Image.__init__` (mzbuild.py:521-524). */
  function CheckImageName(name: string): (r: Result<string, string>)
    ensures r.Ok? <==> forall i :: 0 <= i < |name| ==> NameChar(name[i])
    ensures r.Ok? ==> r.value == name
    ensures r.Err? ==> r.error == "mzbuild image name " + name + " contains invalid character; only alphanumerics and hyphens allowed"
  {
    if FindInvalid(name).Some? then
      Err("mzbuild image name " + name + " contains invalid character; only alphanumerics and hyphens allowed")
    else Ok(name)
  }

  /** `\s` in a bytes pattern: space, tab, newline, carriage return, vertical tab, form feed. */
  predicate IsSpace(c: char)
  {
    c == ' ' || c == '\t' || c == '\n' || c == '\r' || c as int == 11 || c as int == 12
  }

  function SpacePrefix(s: string): (n: nat)
    ensures n <= |s|
    ensures forall i :: 0 <= i < n ==> IsSpace(s[i])
    ensures n == |s| || !IsSpace(s[n])
  {
    if s == [] || !IsSpace(s[0]) then 0 else 1 + SpacePrefix(s[1..])
  }

  function WordPrefix(s: string): (n: nat)
    ensures n <= |s|
    ensures forall i :: 0 <= i < n ==> !IsSpace(s[i])
    ensures n == |s| || IsSpace(s[n])
  {
    if s == [] || IsSpace(s[0]) then 0 else 1 + WordPrefix(s[1..])
  }

  /** `^MZFROM\s*(\S+)`: the image a Dockerfile line builds from, if it is an `MZFROM` line. */
  function ParseMzfrom(line: string): (r: Option<string>)
    ensures r.Some? ==> r.value != [] && forall i :: 0 <= i < |r.value| ==> !IsSpace(r.value[i])
  {
    ParseDirective("MZFROM", line)
  }

  /** `^<keyword>\s*(\S+)`: the first word after the keyword and any blanks. */
  function ParseDirective(keyword: string, line: string): (r: Option<string>)
    ensures r.Some? ==> r.value != [] && forall i :: 0 <= i < |r.value| ==> !IsSpace(r.value[i])
  {
    if |line| < |keyword| || line[..|keyword|] != keyword then None
    else
      var rest := line[|keyword|..];
      var k := SpacePrefix(rest);
      var n := WordPrefix(rest[k..]);
      if n == 0 then None else Some(rest[k..][..n])
  }

  /** Any line shaped "MZFROM", blanks, a word, then nothing or a blank yields that word. */
  lemma ParseMzfromShape(line: string, blanks: string, word: string, tail: string)
    requires line == "MZFROM" + blanks + word + tail
    requires forall i :: 0 <= i < |blanks| ==> IsSpace(blanks[i])
    requires word != [] && forall i :: 0 <= i < |word| ==> !IsSpace(word[i])
    requires tail == [] || IsSpace(tail[0])
    ensures ParseMzfrom(line) == Some(word)
  {
    DirectiveShape("MZFROM", line, blanks, word, tail);
  }

  lemma DirectiveShape(keyword: string, line: string, blanks: string, word: string, tail: string)
    requires line == keyword + (blanks + word + tail)
    requires forall i :: 0 <= i < |blanks| ==> IsSpace(blanks[i])
    requires word != [] && forall i :: 0 <= i < |word| ==> !IsSpace(word[i])
    requires tail == [] || IsSpace(tail[0])
    ensures ParseDirective(keyword, line) == Some(word)
  {
    var rest := blanks + (word + tail);
    assert line[..|keyword|] == keyword && line[|keyword|..] == rest;
    SpacePrefixOf(blanks, word + tail);
    assert rest[|blanks|..] == word + tail;
    WordPrefixOf(word, tail);
    assert (word + tail)[..|word|] == word;
  }

  lemma {:induction false} SpacePrefixOf(blanks: string, s: string)
    requires forall i :: 0 <= i < |blanks| ==> IsSpace(blanks[i])
    requires s != [] && !IsSpace(s[0])
    ensures SpacePrefix(blanks + s) == |blanks|
  {
    if blanks != [] {
      assert (blanks + s)[1..] == blanks[1..] + s;
      SpacePrefixOf(blanks[1..], s);
    }
  }

  lemma {:induction false} WordPrefixOf(word: string, tail: string)
    requires forall i :: 0 <= i < |word| ==> !IsSpace(word[i])
    requires tail == [] || IsSpace(tail[0])
    ensures WordPrefix(word + tail) == |word|
  {
    if word != [] {
      assert (word + tail)[1..] == word[1..] + tail;
      WordPrefixOf(word[1..], tail);
    } else {
      assert word + tail == tail;
    }
  }

  /** The `MZFROM` targets of a Dockerfile, in line order. */
  function MzfromTargets(lines: seq<string>): (r: seq<string>)
    ensures |r| <= |lines|
    ensures forall i :: 0 <= i < |r| ==> r[i] != [] && forall k :: 0 <= k < |r[i]| ==> !IsSpace(r[i][k])
  {
    if lines == [] then []
    else
      var last := ParseMzfrom(lines[|lines| - 1]);
      MzfromTargets(lines[..|lines| - 1]) + (if last.Some? then [last.value] else [])
  }

  /** The Dockerfile scan of `Image.__init__` (mzbuild.py:526-531): one dependency per `MZFROM` line. */
  method ScanDockerfile(lines: seq<string>) returns (dependsOn: seq<string>)
    ensures dependsOn == MzfromTargets(lines)
    ensures |dependsOn| <= |lines|
    ensures forall i :: 0 <= i < |dependsOn| ==> dependsOn[i] != []
  {
    dependsOn := [];
    var i := 0;
    while i < |lines|
      invariant 0 <= i <= |lines|
      invariant dependsOn == MzfromTargets(lines[..i])
      invariant |dependsOn| <= i
      invariant forall k :: 0 <= k < |dependsOn| ==> dependsOn[k] != []
    {
      assert lines[..i + 1][..i] == lines[..i];
      var m := ParseMzfrom(lines[i]);
      if m.Some? {
        dependsOn := dependsOn + [m.value];
      }
      i := i + 1;
    }
    assert lines[..i] == lines;
  }

  // ---------------------------------------------------------------------
  // Docker names
  // ---------------------------------------------------------------------

  /** `docker_name`: `registry/prefix+name`, then `:tag` when a non-empty tag is given. */
  function DockerName(registry: string, prefix: string, name: string, tag: Option<string>): (r: string)
    ensures var base := registry + "/" + prefix + name;
            && |base| <= |r| && r[..|base|] == base
            && (r == base <==> tag.None? || tag.value == [])
  {
    var base := registry + "/" + prefix + name;
    if tag.Some? && tag.value != [] then base + ":" + tag.value else base
  }

  /** A tag without ":" is recovered as the text after the last ":" of the name. */
  lemma DockerNameTag(registry: string, prefix: string, name: string, tag: string)
    requires tag != [] && ':' !in tag
    ensures LastSegment(DockerName(registry, prefix, name, Some(tag)), ':') == tag
  {
    var r := DockerName(registry, prefix, name, Some(tag));
    var base := registry + "/" + prefix + name;
    assert r == (base + [':']) + tag;
    LastSegmentAfter(base + [':'], tag, ':');
  }

  lemma {:induction false} LastSegmentAfter(head: string, tail: string, c: char)
    requires head != [] && head[|head| - 1] == c && c !in tail
    ensures LastSegment(head + tail, c) == tail
    decreases |tail|
  {
    if tail == [] {
      assert head + tail == head;
    } else {
      assert (head + tail)[..|head + tail| - 1] == head + tail[..|tail| - 1];
      LastSegmentAfter(head, tail[..|tail| - 1], c);
      assert tail == tail[..|tail| - 1] + [tail[|tail| - 1]];
    }
  }

  // ---------------------------------------------------------------------
  // Builder paths
  // ---------------------------------------------------------------------

  /** A `pathlib` path as its parts; an absolute path starts with the part "/". */
  type Path = seq<string>

  /** `path.relative_to(base)`: the parts after `base` when `base` leads `path`; otherwise a `ValueError`. */
  function RelativeTo(path: Path, base: Path): (r: Option<Path>)
    ensures r.Some? <==> |base| <= |path| && path[..|base|] == base
    ensures r.Some? ==> path == base + r.value
  {
    if |base| <= |path| && path[..|base|] == base then Some(path[|base|..]) else None
  }

  /** Where the builder container puts Cargo output: `/mnt/build/<target>`. */
  function BuilderTargetDir(target: string): Path
  {
    ["/", "mnt", "build", target]
  }

  /** `cargo_target_dir`: `<root>/target-xcompile/<target>`. */
  function CargoTargetDir(root: Path, target: string): Path
  {
    root + ["target-xcompile", target]
  }

  /**
   * `rewrite_builder_path_for_host` (mzbuild.py:118-129): a path under the
   * builder's target directory moves, with the same remainder, under the
   * host's; every other path is returned unchanged.
   */
  function RewriteBuilderPathForHost(root: Path, target: string, path: Path): (r: Path)
    ensures RelativeTo(path, BuilderTargetDir(target)).Some? ==>
              RelativeTo(r, CargoTargetDir(root, target)) == RelativeTo(path, BuilderTargetDir(target))
    ensures RelativeTo(path, BuilderTargetDir(target)).None? ==> r == path
  {
    match RelativeTo(path, BuilderTargetDir(target))
    case Some(rest) =>
      var r := CargoTargetDir(root, target) + rest;
      assert r[..|CargoTargetDir(root, target)|] == CargoTargetDir(root, target);
      r
    case None => path
  }
}
