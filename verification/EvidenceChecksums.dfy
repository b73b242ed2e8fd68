/**
 The checksum file of an evidence pack: how it is written, how the verifier splits it again, and
 what the verifier then reports. Hashing is a parameter: an injective function into text that
 holds neither spaces nor line breaks.
 */
module EvidenceChecksums {
  import opened Common

  type Bytes = seq<nat>

  /** The regular files of a pack directory, by name. */
  type Directory = map<string, Bytes>

  /** The characters at which the text of a file is split into lines. */
  predicate IsBreak(c: char) {
    c == '\n' || c == '\r' || c == '\U{0B}' || c == '\U{0C}' || c == '\U{1C}' || c == '\U{1D}' || c == '\U{1E}' ||
    c == '\U{85}' || c == '\U{2028}' || c == '\U{2029}'
  }

  predicate OneLine(s: string) {
    forall i :: 0 <= i < |s| ==> !IsBreak(s[i])
  }

  predicate NoSpace(s: string) {
    forall i :: 0 <= i < |s| ==> s[i] != ' '
  }

  ghost predicate IsHash(hex: Bytes -> string) {
    && (forall b :: OneLine(hex(b)) && NoSpace(hex(b)))
    && (forall b, c :: hex(b) == hex(c) ==> b == c)
  }

  // ----- writing

  function Line(hash: string, name: string): string {
    hash + "  " + name
  }

  /** The checksum file of the listed names, in their order. */
  function Checksums(hex: Bytes -> string, files: Directory, names: seq<string>): string
    requires forall n :: n in names ==> n in files
  {
    if names == [] then ""
    else Line(hex(files[names[0]]), names[0]) + ("\n" + Checksums(hex, files, names[1..]))
  }

  // ----- reading

  function FirstBreak(s: string): (k: nat)
    ensures k <= |s| && OneLine(s[..k]) && (k < |s| ==> IsBreak(s[k]))
  {
    if s == "" || IsBreak(s[0]) then 0 else
      var k := 1 + FirstBreak(s[1..]);
      assert s[1..][..k - 1] == s[..k][1..];
      k
  }

  /** A carriage return and the line feed after it are one break; a break at the end starts no line. */
  function SplitLines(s: string): seq<string>
    decreases |s|
  {
    var k := FirstBreak(s);
    if s == "" then []
    else if k == |s| then [s]
    else [s[..k]] + SplitLines(s[k + (if s[k] == '\r' && k + 1 < |s| && s[k + 1] == '\n' then 2 else 1)..])
  }

  /** Splits at the first double space. */
  function SplitOnce(line: string): Option<(string, string)> {
    if |line| < 2 then None
    else if line[0] == ' ' && line[1] == ' ' then Some(("", line[2..]))
    else
      var rest := SplitOnce(line[1..]);
      if rest.None? then None else Some(([line[0]] + rest.value.0, rest.value.1))
  }

  datatype Error = Malformed | Mismatch(name: string)

  function CheckLine(hex: Bytes -> string, files: Directory, line: string): seq<Error> {
    var parts := SplitOnce(line);
    if parts.None? then [Malformed]
    else
      var (expected, name) := parts.value;
      if name !in files || hex(files[name]) != expected then [Mismatch(name)] else []
  }

  function CheckLines(hex: Bytes -> string, files: Directory, lines: seq<string>): seq<Error> {
    if lines == [] then []
    else CheckLines(hex, files, lines[..|lines| - 1]) + CheckLine(hex, files, lines[|lines| - 1])
  }

  /** The checksum loop of the verifier. */
  method VerifyChecksums(hex: Bytes -> string, files: Directory, text: string) returns (errors: seq<Error>)
    ensures errors == CheckLines(hex, files, SplitLines(text))
  {
    errors := [];
    var lines := SplitLines(text);
    for n := 0 to |lines|
      invariant errors == CheckLines(hex, files, lines[..n])
    {
      var parts := SplitOnce(lines[n]);
      if parts.None? {
        errors := errors + [Malformed];
      } else {
        var (expected, name) := parts.value;
        if name !in files || hex(files[name]) != expected {
          errors := errors + [Mismatch(name)];
        }
      }
      assert lines[..n + 1][..n] == lines[..n];
    }
    assert lines[..|lines|] == lines;
  }

  // ----- the round trip

  lemma {:induction false} SplitAfterHash(hash: string, name: string)
    requires NoSpace(hash)
    ensures SplitOnce(Line(hash, name)) == Some((hash, name))
  {
    var line := Line(hash, name);
    if hash == "" {
      assert line[2..] == name;
    } else {
      assert line[1..] == Line(hash[1..], name);
      SplitAfterHash(hash[1..], name);
      assert [line[0]] + hash[1..] == hash;
      assert line[0] == hash[0] != ' ';
    }
  }

  lemma FirstLine(line: string, rest: string)
    requires OneLine(line)
    ensures SplitLines(line + ("\n" + rest)) == [line] + SplitLines(rest)
  {
    var s := line + ("\n" + rest);
    assert s[|line|] == '\n' && s[..|line|] == line;
    FirstBreakIs(s, |line|);
    assert s[|line| + 1..] == rest;
  }

  lemma {:induction false} FirstBreakIs(s: string, n: nat)
    requires n < |s| && OneLine(s[..n]) && IsBreak(s[n])
    ensures FirstBreak(s) == n
  {
  }

  /** The lines of the file, split again, are exactly the recorded pairs of hash and name. */
  lemma {:induction false} ChecksumsRoundTrip(hex: Bytes -> string, files: Directory, names: seq<string>)
    requires IsHash(hex) && forall n :: n in names ==> n in files && OneLine(n)
    ensures var lines := SplitLines(Checksums(hex, files, names));
            && |lines| == |names|
            && forall i :: 0 <= i < |names| ==> SplitOnce(lines[i]) == Some((hex(files[names[i]]), names[i]))
  {
    if names != [] {
      var line := Line(hex(files[names[0]]), names[0]);
      assert names[0] in names && forall n :: n in names[1..] ==> n in names;
      FirstLine(line, Checksums(hex, files, names[1..]));
      ChecksumsRoundTrip(hex, files, names[1..]);
      SplitAfterHash(hex(files[names[0]]), names[0]);
      forall i | 0 < i < |names| ensures names[i] == names[1..][i - 1] {
      }
    }
  }

  /** The listed files that are missing from a directory or whose content differs. */
  function Altered(files: Directory, now: Directory, names: seq<string>): seq<Error>
    requires forall n :: n in names ==> n in files
  {
    if names == [] then []
    else
      var last := names[|names| - 1];
      Altered(files, now, names[..|names| - 1]) + (if last in now && now[last] == files[last] then []
          else [Mismatch(last)])
  }

  lemma {:induction false} ReportFromLines(hex: Bytes -> string, files: Directory, now: Directory, names: seq<string>,
                                           lines: seq<string>)
    requires IsHash(hex) && (forall n :: n in names ==> n in files) && |lines| == |names|
    requires forall i :: 0 <= i < |names| ==> SplitOnce(lines[i]) == Some((hex(files[names[i]]), names[i]))
    ensures CheckLines(hex, now, lines) == Altered(files, now, names)
  {
    if names != [] {
      var n := |names| - 1;
      ReportFromLines(hex, files, now, names[..n], lines[..n]);
      assert SplitOnce(lines[n]) == Some((hex(files[names[n]]), names[n]));
    }
  }

  /**
   Checked against any later directory, the file reports exactly the listed files that were removed
   or altered, in the order listed.
   */
  lemma ReportIsExact(hex: Bytes -> string, files: Directory, now: Directory, names: seq<string>)
    requires IsHash(hex) && forall n :: n in names ==> n in files && OneLine(n)
    ensures CheckLines(hex, now, SplitLines(Checksums(hex, files, names))) == Altered(files, now, names)
  {
    ChecksumsRoundTrip(hex, files, names);
    ReportFromLines(hex, files, now, names, SplitLines(Checksums(hex, files, names)));
  }

  lemma {:induction false} AlteredAre(files: Directory, now: Directory, names: seq<string>, e: Error)
    requires forall n :: n in names ==> n in files
    ensures e in Altered(files, now, names) <==>
            e.Mismatch? && e.name in names && !(e.name in now && now[e.name] == files[e.name])
  {
    if names != [] {
      AlteredAre(files, now, names[..|names| - 1], e);
      assert names == names[..|names| - 1] + [names[|names| - 1]];
    }
  }

  /** No report exactly when every listed file is still there, unchanged. */
  lemma NoReportIffIntact(hex: Bytes -> string, files: Directory, now: Directory, names: seq<string>)
    requires IsHash(hex) && forall n :: n in names ==> n in files && OneLine(n)
    ensures CheckLines(hex, now, SplitLines(Checksums(hex, files, names))) == [] <==>
            forall n :: n in names ==> n in now && now[n] == files[n]
  {
    ReportIsExact(hex, files, now, names);
    var report := Altered(files, now, names);
    if report == [] {
      forall n | n in names ensures n in now && now[n] == files[n] {
        AlteredAre(files, now, names, Mismatch(n));
      }
    } else {
      AlteredAre(files, now, names, report[0]);
    }
  }

  /** The condition on names is needed: a name that holds a line break is reported although nothing changed. */
  lemma LineBreakInName(hex: Bytes -> string, content: Bytes)
    requires IsHash(hex)
    ensures var files := map["a\nb" := content];
            CheckLines(hex, files, SplitLines(Checksums(hex, files, ["a\nb"]))) != []
  {
    var name := "a\nb";
    var files: Directory := map[name := content];
    var first := Line(hex(content), "a");
    assert ["a\nb"][1..] == [];
    assert Checksums(hex, files, [name]) == Line(hex(content), name) + ("\n" + "");
    assert Checksums(hex, files, [name]) == first + ("\n" + "b\n");
    FirstLine(first, "b\n");
    SplitAfterHash(hex(content), "a");
    var lines := SplitLines(Checksums(hex, files, [name]));
    assert lines[0] == first;
    assert CheckLine(hex, files, first) == [Mismatch("a")];
    FirstReportStays(hex, files, lines);
  }

  lemma {:induction false} FirstReportStays(hex: Bytes -> string, files: Directory, lines: seq<string>)
    requires lines != [] && CheckLine(hex, files, lines[0]) != []
    ensures CheckLines(hex, files, lines) != []
  {
    if |lines| > 1 {
      FirstReportStays(hex, files, lines[..|lines| - 1]);
    }
  }
}
