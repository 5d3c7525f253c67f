/** Bundle entry names (crates/logscope-app/src/bundle.rs): the rules every name in an archive
    must obey, and why the names an exporter makes obey them. */
module EntryPaths {
  import opened Texts

  // ---- entry names -------------------------------------------------------------------

  const MAX_ENTRY_NAME_CHARS := 512
  const MAX_ENTRY_DEPTH := 8

  const RESERVED: set<string> := {
    "con", "prn", "aux", "nul", "com1", "com2", "com3", "com4", "com5", "com6", "com7", "com8", "com9",
    "lpt1", "lpt2", "lpt3", "lpt4", "lpt5", "lpt6", "lpt7", "lpt8", "lpt9"}

  /** The part of a segment before its first dot. */
  function Stem(s: string): string { if s == [] || s[0] == '.' then [] else [s[0]] + Stem(s[1..]) }

  function AsciiLower(s: string): string {
    seq(|s|, i requires 0 <= i < |s| => if 'A' <= s[i] <= 'Z' then (s[i] as int + 32) as char else s[i])
  }

  predicate Control(c: char) { c < ' ' || '\U{7f}' <= c <= '\U{9f}' }

  predicate SegmentOk(s: string) {
    && s != [] && s != "." && s != ".."
    && s[|s|-1] != '.' && s[|s|-1] != ' '
    && AsciiLower(Stem(s)) !in RESERVED
  }

  /** `check_entry_path`. */
  predicate EntryPathOk(raw: string) {
    && raw != [] && |raw| <= MAX_ENTRY_NAME_CHARS
    && '\\' !in raw && ':' !in raw && raw[0] != '/'
    && (forall i :: 0 <= i < |raw| ==> !Control(raw[i]))
    && |Split('/', raw)| <= MAX_ENTRY_DEPTH
    && forall i :: 0 <= i < |Split('/', raw)| ==> SegmentOk(Split('/', raw)[i])
  }

  // ---- the rules, on the characters of a name -------------------------------------------

  /** `b` is the character `a`, or the small letter of the capital `a`. */
  predicate Lowers(a: char, b: char) {
    if 'A' <= a <= 'Z' then b as int - 'a' as int == a as int - 'A' as int else b == a
  }

  /** The segment is the device name, up to case, alone or in front of a dot. */
  predicate NamesDevice(x: string, name: string) {
    && |name| <= |x| && (forall i :: 0 <= i < |name| ==> Lowers(x[i], name[i]))
    && (|name| == |x| || x[|name|] == '.')
  }

  ghost predicate BadSegment(x: string) {
    || x in {"", ".", ".."}
    || x[|x|-1] == '.' || x[|x|-1] == ' '
    || exists name :: NamesDevice(x, name) && name in {
        "con", "prn", "aux", "nul", "com1", "com2", "com3", "com4", "com5", "com6", "com7", "com8", "com9",
        "lpt1", "lpt2", "lpt3", "lpt4", "lpt5", "lpt6", "lpt7", "lpt8", "lpt9"}
  }

  lemma {:induction false} StemMeans(x: string)
    ensures Stem(x) <= x && '.' !in Stem(x) && (|Stem(x)| == |x| || x[|Stem(x)|] == '.')
  {
    if x != [] && x[0] != '.' {
      StemMeans(x[1..]);
      assert x == [x[0]] + x[1..];
    }
  }

  lemma NoDots(name: string)
    requires name in RESERVED
    ensures '.' !in name
  {
  }

  lemma DeviceMeans(x: string, name: string)
    requires '.' !in name
    ensures AsciiLower(Stem(x)) == name <==> NamesDevice(x, name)
  {
    var stem := Stem(x);
    StemMeans(x);
    assert stem == x[..|stem|];
    if NamesDevice(x, name) {
      forall i | 0 <= i < |name| ensures x[i] != '.' { assert name[i] in name; }
      assert forall i :: 0 <= i < |stem| ==> stem[i] in stem;
      assert |stem| == |name|;
      assert AsciiLower(stem) == name;
    }
  }

  lemma SegmentMeans(x: string)
    ensures SegmentOk(x) <==> !BadSegment(x)
  {
    hide AsciiLower, Stem, NamesDevice;
    forall name | name in RESERVED ensures AsciiLower(Stem(x)) == name <==> NamesDevice(x, name) {
      NoDots(name);
      DeviceMeans(x, name);
    }
  }

  /** An entry name is accepted exactly when it is not empty, at most 512 characters long, free of
      backslashes, colons and control characters, does not start with a slash, has at most seven
      slashes, and no piece between slashes is empty, a dot name, ends in a dot or a blank, or
      names a device. */
  lemma PathMeans(raw: string)
    ensures EntryPathOk(raw) <==>
      && 1 <= |raw| <= 512 && raw[0] != '/' && multiset(raw)['/'] <= 7
      && (forall c :: c in raw ==> c != '\\' && c != ':' && c as int >= 32 && !(127 <= c as int <= 159))
      && forall x :: IsPiece('/', raw, x) ==> !BadSegment(x)
  {
    CharsMean(raw);
    PiecesMean(raw);
    hide SegmentOk, BadSegment, Split, IsPiece, Control;
  }

  lemma CharsMean(raw: string)
    ensures ('\\' !in raw && ':' !in raw && forall i :: 0 <= i < |raw| ==> !Control(raw[i])) <==>
      forall c :: c in raw ==> c != '\\' && c != ':' && c as int >= 32 && !(127 <= c as int <= 159)
  {
    if forall c :: c in raw ==> c != '\\' && c != ':' && c as int >= 32 && !(127 <= c as int <= 159) {
      forall i | 0 <= i < |raw| ensures !Control(raw[i]) { assert raw[i] in raw; }
    }
  }

  lemma PiecesMean(raw: string)
    ensures |Split('/', raw)| == multiset(raw)['/'] + 1
    ensures (forall i :: 0 <= i < |Split('/', raw)| ==> SegmentOk(Split('/', raw)[i])) <==>
      forall x :: IsPiece('/', raw, x) ==> !BadSegment(x)
  {
    var pieces := Split('/', raw);
    SplitMeans('/', raw, []);
    hide SegmentOk, BadSegment, Split, IsPiece;
    forall x ensures (x in pieces <==> IsPiece('/', raw, x)) && (SegmentOk(x) <==> !BadSegment(x)) {
      SplitMeans('/', raw, x);
      SegmentMeans(x);
    }
    assert (forall i :: 0 <= i < |pieces| ==> SegmentOk(pieces[i])) <==> forall x :: x in pieces ==> SegmentOk(x);
  }

  /** The characters the exporter's names are made of. */
  predicate PlainChar(c: char) { 'a' <= c <= 'z' || '0' <= c <= '9' || c == '-' }

  predicate Plain(s: string) { s != [] && forall i :: 0 <= i < |s| ==> PlainChar(s[i]) }

  lemma {:induction false} PlainStem(stem: string, rest: string)
    requires Plain(stem) && (rest == [] || rest[0] == '.')
    ensures Stem(stem + rest) == stem && AsciiLower(stem) == stem
  {
    assert (stem + rest)[0] == stem[0] && (stem + rest)[1..] == stem[1..] + rest;
    if |stem| > 1 {
      PlainStem(stem[1..], rest);
    } else {
      assert stem[1..] + rest == rest;
    }
    assert stem == [stem[0]] + stem[1..];
  }

  /** A plain name with a plain extension is an acceptable segment unless its stem is reserved. */
  lemma PlainSegment(stem: string, extension: string)
    requires Plain(stem) && stem !in RESERVED
    requires extension == [] || (|extension| > 1 && extension[0] == '.' && Plain(extension[1..]))
    ensures SegmentOk(stem + extension)
  {
    PlainStem(stem, extension);
    var s := stem + extension;
    var last := s[|s|-1];
    assert last == if extension == [] then stem[|stem|-1] else extension[1..][|extension| - 2];
    assert PlainChar(last) && PlainChar(s[0]) && s[0] == stem[0];
  }

  predicate NameChar(c: char) { PlainChar(c) || c == '.' }

  /** `folder/stem.ext` of plain parts passes every rule. */
  lemma PlainPath(folder: string, stem: string, extension: string)
    requires Plain(folder) && folder !in RESERVED && Plain(stem) && stem !in RESERVED
    requires |extension| > 1 && extension[0] == '.' && Plain(extension[1..])
    requires |folder| + 1 + |stem| + |extension| <= MAX_ENTRY_NAME_CHARS
    ensures EntryPathOk(folder + ['/'] + stem + extension)
  {
    var file, raw := stem + extension, folder + ['/'] + stem + extension;
    PlainChars(stem, extension);
    assert raw == folder + ['/'] + file;
    hide SegmentOk, RESERVED;
    NoSlash(folder);
    NoSlash(file);
    SplitJoined('/', folder, file);
    SplitOnePiece('/', folder);
    SplitOnePiece('/', file);
    PlainSegment(folder, []);
    assert folder + [] == folder;
    PlainSegment(stem, extension);
    hide Split, Plain;
    forall i | 0 <= i < |raw| ensures NameChar(raw[i]) || raw[i] == '/' {
      assert i > |folder| ==> raw[i] == file[i - |folder| - 1];
    }
    SafeChars(raw);
  }

  lemma PlainChars(stem: string, extension: string)
    requires Plain(stem) && |extension| > 1 && extension[0] == '.' && Plain(extension[1..])
    ensures forall i :: 0 <= i < |stem + extension| ==> NameChar((stem + extension)[i])
  {
    var file := stem + extension;
    forall i | 0 <= i < |file| ensures NameChar(file[i]) {
      assert i > |stem| ==> file[i] == extension[1..][i - |stem| - 1];
    }
  }

  lemma NoSlash(s: string)
    requires forall i :: 0 <= i < |s| ==> NameChar(s[i])
    ensures '/' !in s
  {
  }

  lemma SafeChars(s: string)
    requires forall i :: 0 <= i < |s| ==> NameChar(s[i]) || s[i] == '/'
    ensures '\\' !in s && ':' !in s && forall i :: 0 <= i < |s| ==> !Control(s[i])
  {
  }

  lemma PlainFile(stem: string, extension: string)
    requires Plain(stem) && stem !in RESERVED
    requires |extension| > 1 && extension[0] == '.' && Plain(extension[1..])
    requires |stem| + |extension| <= MAX_ENTRY_NAME_CHARS
    ensures EntryPathOk(stem + extension)
  {
    var raw := stem + extension;
    PlainChars(stem, extension);
    NoSlash(raw);
    SplitOnePiece('/', raw);
    PlainSegment(stem, extension);
    SafeChars(raw);
  }
}
