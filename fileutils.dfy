/** src/lib/fileUtils.ts: classifying a file name into a kind, and the
    per-file progress loop of `simulateFileOperation` with its timers taken
    out and `Math.random` given as a stream of draws. */
module FileUtils {
  import opened Types

  // ---------------------------------------------------------------------
  // Classification
  // ---------------------------------------------------------------------

  /** `pieces` joined back together with `sep` between neighbours. */
  function Join(pieces: seq<string>, sep: char): string
    requires |pieces| >= 1
  {
    if |pieces| == 1 then pieces[0]
    else Join(pieces[..|pieces| - 1], sep) + [sep] + pieces[|pieces| - 1]
  }

  /** JavaScript's `s.split(sep)` for a one-character separator: never empty,
      no piece holds the separator, and joining the pieces gives `s` back. */
  function Split(s: string, sep: char): (pieces: seq<string>)
    ensures |pieces| >= 1
    ensures forall i :: 0 <= i < |pieces| ==> sep !in pieces[i]
    ensures Join(pieces, sep) == s
    decreases |s|
  {
    if s == [] then [""]
    else
      var init := Split(s[..|s| - 1], sep);
      var c := s[|s| - 1];
      assert s == s[..|s| - 1] + [c];
      if c == sep then init + [""]
      else
        var last := init[|init| - 1] + [c];
        var r := init[..|init| - 1] + [last];
        assert r[..|r| - 1] == init[..|init| - 1];
        r
  }

  /** `fileName.split('.').pop()`: the text after the last dot, or the whole
      name when it has no dot (`ExtensionIsLastPiece` ties it to `Split`). */
  function Extension(name: string): (ext: string)
    ensures '.' !in ext && |ext| <= |name|
  {
    if name == [] || name[|name| - 1] == '.' then []
    else Extension(name[..|name| - 1]) + [name[|name| - 1]]
  }

  /** The extension is a dot-free suffix of the name that is either the whole
      name or comes right after a dot. */
  lemma {:induction false} ExtensionSpec(name: string)
    ensures '.' !in Extension(name)
    ensures |Extension(name)| <= |name| && Extension(name) == name[|name| - |Extension(name)|..]
    ensures Extension(name) == name || name[|name| - |Extension(name)| - 1] == '.'
  {
    if name != [] && name[|name| - 1] != '.' {
      var init, c := name[..|name| - 1], name[|name| - 1];
      var before := Extension(init);
      ExtensionSpec(init);
      assert Extension(name) == before + [c];
      assert name == init + [c];
      assert name[|name| - |before| - 1..] == init[|init| - |before|..] + [c];
      if before != init {
        assert name[|name| - |before| - 2] == init[|init| - |before| - 1];
      }
    }
  }

  /** The three properties of `ExtensionSpec` single out one suffix of a name. */
  lemma ExtensionUnique(name: string, e: string)
    requires '.' !in e
    requires |e| <= |name| && e == name[|name| - |e|..]
    requires e == name || name[|name| - |e| - 1] == '.'
    ensures e == Extension(name)
  {
    ExtensionSpec(name);
  }

  /** The extension is the last piece of `split('.')`. */
  lemma ExtensionIsLastPiece(name: string)
    ensures Extension(name) == Split(name, '.')[|Split(name, '.')| - 1]
  {
    var pieces := Split(name, '.');
    var last := pieces[|pieces| - 1];
    if |pieces| == 1 {
      assert last == name;
    } else {
      assert name == Join(pieces[..|pieces| - 1], '.') + ['.'] + last;
      assert name[|name| - |last|..] == last;
    }
    ExtensionUnique(name, last);
  }

  /** The extension of `base + "." + ext` is `ext` whenever `ext` has no dot,
      whatever `base` holds (dots included). */
  lemma ExtensionAfterLastDot(base: string, ext: string)
    requires '.' !in ext
    ensures Extension(base + "." + ext) == ext
  {
    var name := base + "." + ext;
    assert name[|name| - |ext|..] == ext;
    assert name[|name| - |ext| - 1] == '.';
    ExtensionUnique(name, ext);
  }

  /** A name without any dot is its own extension. */
  lemma ExtensionWithoutDot(name: string)
    requires '.' !in name
    ensures Extension(name) == name
  {
    assert name[|name| - |name|..] == name;
    ExtensionUnique(name, name);
  }

  /** ASCII lower-casing of one character. */
  function LowerChar(c: char): char
  {
    if 'A' <= c <= 'Z' then (c as int + ('a' as int - 'A' as int)) as char else c
  }

  /** `toLowerCase()`, for the letters A to Z. */
  function ToLower(s: string): (lower: string)
    ensures |lower| == |s|
    ensures forall i :: 0 <= i < |lower| ==> !('A' <= lower[i] <= 'Z')
    ensures forall i :: 0 <= i < |s| && !('A' <= s[i] <= 'Z') ==> lower[i] == s[i]
  {
    seq(|s|, i requires 0 <= i < |s| => LowerChar(s[i]))
  }

  /** Lower-casing a name and taking its extension commute, because
      lower-casing neither creates nor removes dots. */
  lemma ExtensionOfLower(name: string)
    ensures Extension(ToLower(name)) == ToLower(Extension(name))
  {
    ExtensionSpec(name);
    var x := Extension(name);
    var ln, lx := ToLower(name), ToLower(x);
    var k := |name| - |x|;
    assert lx == ln[k..] by {
      forall i | 0 <= i < |x| ensures lx[i] == ln[k + i] {
        assert x[i] == name[k + i];
      }
    }
    assert '.' !in lx by {
      forall i | 0 <= i < |lx| ensures lx[i] != '.' {
        assert x[i] != '.';
      }
    }
    if x != name {
      assert ln[k - 1] == LowerChar(name[k - 1]);
    }
    ExtensionUnique(ln, lx);
  }

  /** The switch of `getFileTypeFromName`, on an already lower-cased extension. */
  function KindOfExtension(ext: string): (kind: FileType)
    ensures kind != Other <==> ext in SupportedExtensions
  {
    if ext == "doc" || ext == "docx" then Docx
    else if ext == "pdf" then Pdf
    else if ext == "xls" || ext == "xlsx" then Xls
    else if ext == "png" || ext == "jpg" || ext == "jpeg" || ext == "gif" || ext == "webp" then Png
    else Other
  }

  /** Classifies a file by the lower-cased text after the last dot of its name. */
  function GetFileTypeFromName(fileName: string): (kind: FileType)
    ensures kind != Other <==> ToLower(Extension(fileName)) in SupportedExtensions
  {
    KindOfExtension(ToLower(Extension(fileName)))
  }

  /** The lower-case extensions the table recognises. */
  const SupportedExtensions: set<string> :=
    {"doc", "docx", "pdf", "xls", "xlsx", "png", "jpg", "jpeg", "gif", "webp"}

  /** `isFileTypeSupported`: the file's kind is one of the four listed kinds. */
  function IsFileTypeSupported(file: UploadedFile): (supported: bool)
    ensures supported <==> GetFileTypeFromName(file.name) != Other
  {
    GetFileTypeFromName(file.name) in [Docx, Pdf, Xls, Png]
  }

  /** A name is classified by its extension alone: `base + "." + ext` with a
      dot-free `ext` gets the kind the table gives the lower-cased `ext`. */
  lemma ClassifyByExtension(base: string, ext: string)
    requires '.' !in ext
    ensures GetFileTypeFromName(base + "." + ext) == KindOfExtension(ToLower(ext))
  {
    ExtensionAfterLastDot(base, ext);
  }

  /** Names that agree up to upper/lower case get the same kind. */
  lemma ClassifyIgnoresCase(a: string, b: string)
    requires ToLower(a) == ToLower(b)
    ensures GetFileTypeFromName(a) == GetFileTypeFromName(b)
  {
    ExtensionOfLower(a);
    ExtensionOfLower(b);
  }

  /** Worked case: the comparison ignores case. */
  lemma ClassifyUpperCase()
    ensures GetFileTypeFromName("REPORT.PDF") == Pdf
  {
    var lower := ToLower("PDF");
    assert lower[0] == 'p' && lower[1] == 'd' && lower[2] == 'f';
    assert lower == "pdf";
    ClassifyByExtension("REPORT", "PDF");
    assert "REPORT" + "." + "PDF" == "REPORT.PDF";
  }

  /** Worked case: a name ending in a dot has an empty extension. */
  lemma ClassifyTrailingDot()
    ensures GetFileTypeFromName("file.") == Other
  {
    ClassifyByExtension("file", "");
    assert "file" + "." + "" == "file.";
  }

  /** Worked case: only the last dot counts. */
  lemma ClassifyLastDot()
    ensures GetFileTypeFromName("archive.pdf.Docx") == Docx
  {
    var lower := ToLower("Docx");
    assert lower[0] == 'd' && lower[1] == 'o' && lower[2] == 'c' && lower[3] == 'x';
    assert lower == "docx";
    ClassifyByExtension("archive.pdf", "Docx");
    assert "archive.pdf" + "." + "Docx" == "archive.pdf.Docx";
  }

  /** Worked case: a name without a dot is read whole as its extension. */
  lemma ClassifyNoDot()
    ensures GetFileTypeFromName("jpeg") == Png
  {
    ExtensionWithoutDot("jpeg");
    assert ToLower("jpeg") == "jpeg";
  }

  // ---------------------------------------------------------------------
  // Simulated processing
  // ---------------------------------------------------------------------

  /** The tick loop stops within this many ticks (each tick below 100 adds at
      least 0.5). */
  const MaxTicks: nat := 200

  function Min(a: real, b: real): real
  {
    if a <= b then a else b
  }

  /** The increment of one tick for the draw `r` of `Math.random()`: its range
      depends on the tier the current progress is in. */
  function Increment(progress: real, r: real): (inc: real)
    requires 0.0 <= r < 1.0
    ensures progress < 30.0 ==> 3.0 <= inc < 8.0
    ensures 30.0 <= progress < 70.0 ==> 1.0 <= inc < 4.0
    ensures 70.0 <= progress ==> 0.5 <= inc < 1.5
  {
    if progress < 30.0 then r * 5.0 + 3.0
    else if progress < 70.0 then r * 3.0 + 1.0
    else r * 1.0 + 0.5
  }

  /** One tick: add the increment and cap the result at 100. It never leaves
      [0, 100], never goes down, and below 100 it gains at least 0.5 or
      reaches 100. */
  function Tick(progress: real, r: real): (next: real)
    requires 0.0 <= r < 1.0
    ensures 0.0 <= progress <= 100.0 ==> progress <= next <= 100.0
    ensures next == 100.0 || next >= progress + 0.5
  {
    Min(100.0, progress + Increment(progress, r))
  }

  /** What one file's `onProgress` receives before its single `onComplete`:
      at most `MaxTicks` integers in [0, 100], never decreasing, the last one
      100 and every earlier one below 100. */
  ghost predicate IsProgressReport(reports: seq<int>)
  {
    && 1 <= |reports| <= MaxTicks
    && (forall i :: 0 <= i < |reports| ==> 0 <= reports[i] <= 100)
    && (forall i, j :: 0 <= i <= j < |reports| ==> reports[i] <= reports[j])
    && reports[|reports| - 1] == 100
    && (forall i :: 0 <= i < |reports| - 1 ==> reports[i] < 100)
  }

  lemma FloorMonotone(a: real, b: real)
    requires a <= b
    ensures a.Floor <= b.Floor
  {
  }

  /** One file's progress loop of `simulateFileOperation`, with the interval
      timer replaced by a loop: `levels` are the successive values of the
      local `progress`, drawn from `rand(start)`, `rand(start + 1)`, ...; and
      `reports` are the values handed to `onProgress`. */
  method SimulateFile(rand: nat -> real, start: nat) returns (reports: seq<int>, levels: seq<real>)
    requires forall k :: 0.0 <= rand(k) < 1.0
    ensures |levels| == |reports| >= 1
    ensures levels[0] == Tick(0.0, rand(start))
    ensures forall i :: 0 < i < |levels| ==> levels[i] == Tick(levels[i - 1], rand(start + i))
    ensures forall i :: 0 <= i < |levels| ==> reports[i] == levels[i].Floor
    ensures levels[|levels| - 1] == 100.0
    ensures forall i :: 0 <= i < |levels| - 1 ==> levels[i] < 100.0
    ensures IsProgressReport(reports)
  {
    var progress: real := 0.0;
    reports, levels := [], [];
    while progress < 100.0
      invariant 0.0 <= progress <= 100.0
      invariant |levels| == |reports| <= MaxTicks
      invariant levels == [] ==> progress == 0.0
      invariant levels != [] ==> levels[|levels| - 1] == progress
      invariant progress < 100.0 ==> progress >= 0.5 * (|levels| as real)
      invariant |levels| > 0 ==> levels[0] == Tick(0.0, rand(start))
      invariant forall i :: 0 < i < |levels| ==> levels[i] == Tick(levels[i - 1], rand(start + i))
      invariant forall i :: 0 <= i < |levels| - 1 ==> levels[i] < 100.0
      invariant forall i :: 0 <= i < |levels| ==> 0.0 <= levels[i] <= progress
      invariant forall i, j :: 0 <= i <= j < |levels| ==> levels[i] <= levels[j]
      invariant forall i :: 0 <= i < |levels| ==> reports[i] == levels[i].Floor
      decreases MaxTicks - |levels|
    {
      progress := Tick(progress, rand(start + |levels|));
      levels := levels + [progress];
      reports := reports + [progress.Floor];
    }
    forall i, j | 0 <= i <= j < |reports| ensures reports[i] <= reports[j] {
      FloorMonotone(levels[i], levels[j]);
    }
  }

  /** `simulateFileOperation` on a list of files, one file after the other:
      `traces[j]` is what `onProgress` receives for `files[j]`, after which
      `onComplete` is called once for it. Every file gets a complete report,
      and the operation is over only when every file has completed. `next` is
      the first draw not consumed. */
  method SimulateFileOperation(files: seq<FileItem>, rand: nat -> real, start: nat)
    returns (traces: seq<seq<int>>, next: nat)
    requires forall k :: 0.0 <= rand(k) < 1.0
    ensures |traces| == |files|
    ensures forall j :: 0 <= j < |traces| ==> IsProgressReport(traces[j])
    ensures next >= start
  {
    traces, next := [], start;
    var j := 0;
    while j < |files|
      invariant 0 <= j <= |files| && |traces| == j
      invariant forall k :: 0 <= k < j ==> IsProgressReport(traces[k])
      invariant next >= start
    {
      var reports, levels := SimulateFile(rand, next);
      traces := traces + [reports];
      next := next + |reports|;
      j := j + 1;
    }
  }
}
