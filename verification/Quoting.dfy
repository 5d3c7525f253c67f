/** Quoting for the query language (crates/logscope-app/src/case.rs against the lexer of
    crates/logscope-query-lang/src/lex.rs) and for Markdown (crates/logscope-app/src/report.rs). */
module Quoting {
  import opened Rows
  import opened Texts

  // ---- query strings -------------------------------------------------------------------

  function QuotedChar(c: char): string {
    if c == '"' then ['\\', '"']
    else if c == '\\' then ['\\', '\\']
    else if c == '\n' then ['\\', 'n']
    else if c == '\t' then ['\\', 't']
    else if c == '\r' then ['\\', 'r']
    else [c]
  }

  function QuotedChars(s: string): string { if s == [] then [] else QuotedChar(s[0]) + QuotedChars(s[1..]) }

  function Quoted(s: string): string { ['"'] + QuotedChars(s) + ['"'] }

  method PushQuoted(buffer: string, c: char) returns (out: string)
    ensures out == buffer + QuotedChar(c)
  {
    match c {
      case '"' => out := buffer + ['\\', '"'];
      case '\\' => out := buffer + ['\\', '\\'];
      case '\n' => out := buffer + ['\\', 'n'];
      case '\t' => out := buffer + ['\\', 't'];
      case '\r' => out := buffer + ['\\', 'r'];
      case other => out := buffer + [other];
    }
  }

  method QuoteValue(s: string) returns (out: string)
    ensures out == Quoted(s)
  {
    out := ['"'];
    var i := 0;
    assert s[..0] == [];
    while i < |s|
      invariant i <= |s| && out == ['"'] + QuotedChars(s[..i])
    {
      hide QuotedChars;
      QuotedCharsSnoc(s[..i], s[i]);
      assert s[..i + 1] == s[..i] + [s[i]];
      out := PushQuoted(out, s[i]);
      i := i + 1;
    }
    assert s[..i] == s;
    out := out + ['"'];
  }

  lemma {:induction false} QuotedCharsSnoc(s: string, c: char)
    ensures QuotedChars(s + [c]) == QuotedChars(s) + QuotedChar(c)
  {
    if s == [] {
      assert [c][1..] == [];
    } else {
      assert (s + [c])[0] == s[0] && (s + [c])[1..] == s[1..] + [c];
      QuotedCharsSnoc(s[1..], c);
      hide QuotedChar;
    }
  }

  /** A quoted token: its text, whether it ended, bad escapes met, and what follows it. */
  datatype Token = Token(text: string, terminated: bool, badEscapes: nat, rest: string)

  /** The lexer behind an opening quote. */
  function LexQuoted(input: string, out: string, bad: nat): Token
    decreases |input|
  {
    if input == [] then Token(out, false, bad, [])
    else if input[0] == '"' then Token(out, true, bad, input[1..])
    else if input[0] != '\\' then LexQuoted(input[1..], out + [input[0]], bad)
    else if |input| == 1 then Token(out, false, bad, [])
    else match input[1]
      case '"' => LexQuoted(input[2..], out + ['"'], bad)
      case '\\' => LexQuoted(input[2..], out + ['\\'], bad)
      case 'n' => LexQuoted(input[2..], out + ['\n'], bad)
      case 't' => LexQuoted(input[2..], out + ['\t'], bad)
      case 'r' => LexQuoted(input[2..], out + ['\r'], bad)
      case other => LexQuoted(input[2..], out + [other], bad + 1)
  }

  lemma LexChar(c: char, tail: string, out: string, bad: nat)
    ensures LexQuoted(QuotedChar(c) + tail, out, bad) == LexQuoted(tail, out + [c], bad)
  {
    var input := QuotedChar(c) + tail;
    if |QuotedChar(c)| == 2 {
      assert input[2..] == tail && input[0] == '\\' && input[1] == QuotedChar(c)[1];
    } else {
      assert input[1..] == tail && input[0] == c;
    }
  }

  lemma {:induction false} LexChars(s: string, tail: string, out: string, bad: nat)
    ensures LexQuoted(QuotedChars(s) + tail, out, bad) == LexQuoted(tail, out + s, bad)
  {
    if s == [] {
      assert QuotedChars(s) + tail == tail && out + s == out;
    } else {
      assert QuotedChars(s) + tail == QuotedChar(s[0]) + (QuotedChars(s[1..]) + tail);
      LexChar(s[0], QuotedChars(s[1..]) + tail, out, bad);
      LexChars(s[1..], tail, out + [s[0]], bad);
      assert out + s == out + [s[0]] + s[1..];
    }
  }

  /** Whatever a group's value holds, the lexer reads its quoted form back as that value, with
      no diagnostic, and resumes right behind it: the value can never reach into the query. */
  lemma QuoteReadsBack(s: string, rest: string)
    ensures Quoted(s) + rest == ['"'] + (QuotedChars(s) + (['"'] + rest))
    ensures LexQuoted((Quoted(s) + rest)[1..], [], 0) == Token(s, true, 0, rest)
  {
    var tail := ['"'] + rest;
    assert (Quoted(s) + rest)[1..] == QuotedChars(s) + tail;
    LexChars(s, tail, [], 0);
    assert [] + s == s && tail[0] == '"' && tail[1..] == rest;
    assert LexQuoted(tail, s, 0) == Token(s, true, 0, rest);
  }

  // ---- Markdown prose ------------------------------------------------------------------

  predicate Significant(c: char) {
    c in {'\\', '`', '*', '_', '{', '}', '[', ']', '<', '>', '#', '|'}
  }

  function EscapedChar(c: char): string { if Significant(c) then ['\\', c] else [c] }

  function Escaped(s: string): string { if s == [] then [] else EscapedChar(s[0]) + Escaped(s[1..]) }

  method MdEscape(text: string) returns (out: string)
    ensures out == Escaped(text)
  {
    out := [];
    var i := 0;
    assert text[..0] == [];
    while i < |text|
      invariant i <= |text| && out == Escaped(text[..i])
    {
      EscapedSnoc(text[..i], text[i]);
      assert text[..i + 1] == text[..i] + [text[i]];
      if Significant(text[i]) { out := out + ['\\']; }
      out := out + [text[i]];
      i := i + 1;
    }
    assert text[..i] == text;
  }

  lemma {:induction false} EscapedSnoc(s: string, c: char)
    ensures Escaped(s + [c]) == Escaped(s) + EscapedChar(c)
  {
    if s == [] {
      assert [c][1..] == [];
    } else {
      assert (s + [c])[0] == s[0] && (s + [c])[1..] == s[1..] + [c];
      EscapedSnoc(s[1..], c);
      hide EscapedChar;
    }
  }

  predicate Punctuation(c: char) {
    '!' <= c <= '/' || ':' <= c <= '@' || '[' <= c <= '`' || '{' <= c <= '~'
  }

  // Character references (section 6.2 of CommonMark): `&`, a name or `#` and a code, `;`.

  predicate Alphanumeric(c: char) { '0' <= c <= '9' || 'A' <= c <= 'Z' || 'a' <= c <= 'z' }

  /** How many alphanumeric characters stand before a semicolon, if nothing else does. */
  function NameLength(u: string): (n: Option<nat>)
    ensures n.Some? ==> n.value < |u| && u[n.value] == ';' && forall i :: 0 <= i < n.value ==> Alphanumeric(u[i])
  {
    if u == [] then None
    else if u[0] == ';' then Some(0)
    else if !Alphanumeric(u[0]) then None
    else match NameLength(u[1..]) case None => None case Some(n) => Some(n + 1)
  }

  /** What each reference stands for, by its body; always shorter than the reference. */
  type References = map<string, string>

  ghost predicate Shortening(names: References) { forall b :: b in names ==> |names[b]| < |b| + 2 }

  /** The length of the body of the reference that follows an `&`. */
  function BodyLength(names: References, u: string): (n: Option<nat>)
    ensures n.Some? ==> n.value < |u| && u[..n.value] in names
  {
    if u != [] && u[0] == '#' then
      match NameLength(u[1..])
      case None => None
      case Some(n) => if n > 0 && u[..n + 1] in names then Some(n + 1) else None
    else
      match NameLength(u)
      case None => None
      case Some(n) => if n > 0 && u[..n] in names then Some(n) else None
  }

  /** The twelve characters a reader may take for markup inside a line. */
  predicate Active(c: char) {
    || c == '\\' || c == '`' || c == '*' || c == '_' || c == '{' || c == '}'
    || c == '[' || c == ']' || c == '<' || c == '>' || c == '#' || c == '|'
  }

  /** What a Markdown reader shows: a backslash before ASCII punctuation vanishes (section 2.4 of
      CommonMark) and a reference turns into what it stands for. The flag says whether one of
      the twelve active characters stood bare. */
  function Shown(names: References, t: string): (string, bool)
    decreases |t|
  {
    if t == [] then ([], false)
    else if t[0] == '\\' && |t| > 1 && Punctuation(t[1]) then
      var (s, active) := Shown(names, t[2..]);
      ([t[1]] + s, active)
    else if t[0] == '&' && BodyLength(names, t[1..]).Some? then
      var n := BodyLength(names, t[1..]).value;
      var (s, active) := Shown(names, t[n + 2..]);
      (names[t[1..][..n]] + s, active)
    else
      var (s, active) := Shown(names, t[1..]);
      ([t[0]] + s, active || Active(t[0]))
  }

  /** A reference by name begins at the head of `s`. */
  predicate NamedAtHead(names: References, s: string) {
    s != [] && s[0] == '&' && NameLength(s[1..]).Some? && NameLength(s[1..]).value > 0 && s[1..][..NameLength(s[1..]).value] in names
  }

  /** A digit or a letter of the ASCII table. */
  predicate Word(c: char) { 48 <= c as int <= 57 || 65 <= c as int <= 90 || 97 <= c as int <= 122 }

  /** An ampersand, then `n` letters and digits that are a name, then a semicolon. */
  predicate Spelled(names: References, s: string, n: nat) {
    && n > 0 && n + 1 < |s| && s[0] == '&' && s[n + 1] == ';' && s[1..n + 1] in names
    && forall i :: 1 <= i <= n ==> Word(s[i])
  }

  lemma {:induction false} NameEnds(u: string, n: nat)
    requires n < |u| && u[n] == ';' && forall i :: 0 <= i < n ==> Alphanumeric(u[i])
    ensures NameLength(u) == Some(n)
  {
    if n > 0 { NameEnds(u[1..], n - 1); }
  }

  /** What counts as a reference by name, on the characters of the text. */
  lemma NamedMeans(names: References, s: string)
    ensures NamedAtHead(names, s) <==> exists n: nat :: Spelled(names, s, n)
  {
    var u := if s == [] then [] else s[1..];
    assert forall i :: 0 <= i < |u| ==> u[i] == s[i + 1];
    if NamedAtHead(names, s) {
      var n := NameLength(u).value;
      assert u[..n] == s[1..n + 1];
      assert Spelled(names, s, n);
    }
    if n: nat :| Spelled(names, s, n) {
      NameEnds(u, n);
      assert u[..n] == s[1..n + 1];
    }
  }

  ghost predicate HasNamed(names: References, s: string) { exists i :: 0 <= i < |s| && NamedAtHead(names, s[i..]) }

  lemma HasNamedStep(names: References, s: string)
    requires s != []
    ensures HasNamed(names, s) <==> NamedAtHead(names, s) || HasNamed(names, s[1..])
  {
    hide NamedAtHead;
    assert s[0..] == s;
    forall i | 0 < i < |s| ensures s[i..] == s[1..][i - 1..] {}
    if HasNamed(names, s[1..]) {
      var i :| 0 <= i < |s[1..]| && NamedAtHead(names, s[1..][i..]);
      assert s[i + 1..] == s[1..][i..];
    }
  }

  lemma EscapedHead(u: string)
    requires u != []
    ensures Escaped(u) != [] && Escaped(u)[0] == if Significant(u[0]) then '\\' else u[0]
    ensures Significant(u[0]) ==> |Escaped(u)| > 1 && Escaped(u)[1] == u[0] && Escaped(u)[2..] == Escaped(u[1..])
    ensures !Significant(u[0]) ==> Escaped(u) == [u[0]] + Escaped(u[1..]) && Escaped(u)[1..] == Escaped(u[1..])
    ensures Alphanumeric(u[0]) || u[0] == ';' || u[0] == '&' ==> !Significant(u[0])
    ensures Significant(u[0]) ==> Punctuation(u[0])
    ensures Active(u[0]) <==> Significant(u[0])
  {
    assert Escaped(u) == EscapedChar(u[0]) + Escaped(u[1..]);
  }

  /** Escaping leaves a name and its semicolon alone. */
  lemma {:induction false} NameEscaped(u: string)
    ensures NameLength(Escaped(u)) == NameLength(u)
    ensures NameLength(u).Some? ==>
      var n := NameLength(u).value;
      n < |Escaped(u)| && Escaped(u)[..n] == u[..n] && Escaped(u)[n + 1..] == Escaped(u[n + 1..])
  {
    if u != [] {
      EscapedHead(u);
      hide Escaped, Significant, Punctuation, Active;
      if Alphanumeric(u[0]) {
        NameEscaped(u[1..]);
        if NameLength(u).Some? { NameOneOn(u, Escaped(u), NameLength(u[1..]).value); }
      } else if u[0] == ';' {
        assert u[..0] == Escaped(u)[..0];
      }
    }
  }

  lemma NameOneOn(u: string, t: string, n: nat)
    requires u != [] && t != [] && n < |u[1..]| && n < |t[1..]| && u[0] == t[0] && t[1..][..n] == u[1..][..n]
    ensures t[..n + 1] == u[..n + 1] && t[n + 2..] == t[1..][n + 1..] && u[n + 2..] == u[1..][n + 1..]
  {
    assert t[..n + 1] == [t[0]] + t[1..][..n];
    assert u[..n + 1] == [u[0]] + u[1..][..n];
  }

  /** In escaped text only references by name are left, where the text itself has them. */
  lemma EscapedReference(names: References, s: string)
    requires s != [] && s[0] == '&'
    ensures BodyLength(names, Escaped(s[1..])).Some? <==> NamedAtHead(names, s)
    ensures NamedAtHead(names, s) ==> BodyLength(names, Escaped(s[1..])) == NameLength(s[1..])
  {
    var u := s[1..];
    NameEscaped(u);
    if u != [] { EscapedHead(u); }
    hide NameLength, Escaped, Significant;
  }

  /** One step of the reader through escaped text. */
  lemma ShownStep(names: References, s: string)
    requires s != []
    ensures NamedAtHead(names, s) ==>
      var n := NameLength(s[1..]).value;
      var (rest, active) := Shown(names, Escaped(s[n + 2..]));
      Shown(names, Escaped(s)) == (names[s[1..][..n]] + rest, active)
    ensures !NamedAtHead(names, s) ==>
      var (rest, active) := Shown(names, Escaped(s[1..]));
      Shown(names, Escaped(s)) == ([s[0]] + rest, active)
  {
    EscapedHead(s);
    hide Escaped, Significant;
    if s[0] == '&' { ReferenceStep(names, s); }
    hide NameLength, BodyLength;
  }

  lemma ReferenceStep(names: References, s: string)
    requires s != [] && s[0] == '&'
    ensures BodyLength(names, Escaped(s)[1..]).Some? <==> NamedAtHead(names, s)
    ensures NamedAtHead(names, s) ==>
      var n := NameLength(s[1..]).value;
      && BodyLength(names, Escaped(s)[1..]) == Some(n)
      && n + 2 <= |Escaped(s)| && Escaped(s)[1..][..n] == s[1..][..n] && Escaped(s)[n + 2..] == Escaped(s[n + 2..])
  {
    EscapedReference(names, s);
    NameEscaped(s[1..]);
    EscapedHead(s);
    hide NameLength, BodyLength, Escaped;
    if NamedAtHead(names, s) {
      var n := NameLength(s[1..]).value;
      assert s[1..][n + 1..] == s[n + 2..];
      assert Escaped(s)[n + 2..] == Escaped(s[1..])[n + 1..];
    }
  }

  lemma {:induction false} NeverLonger(names: References, s: string)
    requires Shortening(names)
    ensures |Shown(names, Escaped(s)).0| <= |s| && !Shown(names, Escaped(s)).1
    decreases |s|
  {
    if s != [] {
      ShownStep(names, s);
      if NamedAtHead(names, s) { NeverLonger(names, s[NameLength(s[1..]).value + 2..]); } else { NeverLonger(names, s[1..]); }
    }
    hide NameLength, Escaped;
  }

  lemma ReferenceShrinks(names: References, s: string)
    requires Shortening(names) && NamedAtHead(names, s)
    ensures |Shown(names, Escaped(s)).0| < |s|
  {
    ShownStep(names, s);
    NeverLonger(names, s[NameLength(s[1..]).value + 2..]);
    hide Shown, Escaped;
  }

  /** Escaped prose shows none of the twelve characters as active, and it shows as exactly the
      original text if and only if the text spells no character reference by name. */
  lemma {:induction false} EscapeShowsTextIff(names: References, s: string)
    requires Shortening(names)
    ensures !Shown(names, Escaped(s)).1
    ensures Shown(names, Escaped(s)).0 == s <==> !HasNamed(names, s)
  {
    hide *;
    NeverLonger(names, s);
    if s == [] {
      NothingShown(names);
    } else {
      HasNamedStep(names, s);
      if NamedAtHead(names, s) {
        ReferenceShrinks(names, s);
      } else {
        PlainStep(names, s);
        EscapeShowsTextIff(names, s[1..]);
      }
    }
  }

  lemma NothingShown(names: References)
    ensures Shown(names, Escaped([])).0 == [] && !HasNamed(names, [])
  {
  }

  /** A head that begins no reference is shown as it is. */
  lemma PlainStep(names: References, s: string)
    requires s != [] && !NamedAtHead(names, s)
    ensures Shown(names, Escaped(s)).0 == s <==> Shown(names, Escaped(s[1..])).0 == s[1..]
  {
    ShownStep(names, s);
    hide *;
    var rest := Shown(names, Escaped(s[1..])).0;
    assert s == [s[0]] + s[1..];
    assert ([s[0]] + rest)[1..] == rest;
  }

  /** `&amp;` passes the escaper and is read as `&`. */
  lemma ReferenceIsRead()
    ensures Escaped("&amp;") == "&amp;" && Shown(map["amp" := "&"], "&amp;") == ("&", false)
  {
    var s := "&amp;";
    EscapedSameIff(s);
    var u := s[1..];
    assert u[1..][1..][1..] == ";" && u[0] == 'a' && u[1..][0] == 'm' && u[1..][1..][0] == 'p';
    assert NameLength(u) == Some(3);
    assert u[..3] == "amp";
    var names := map["amp" := "&"];
    assert BodyLength(names, u) == Some(3);
    assert s[5..] == [] && Shown(names, []) == ([], false);
    hide NameLength, BodyLength, Escaped;
    assert Shown(names, s) == (names[u[..3]] + [], false);
    assert "&" + [] == "&";
  }

  /** The escaper changes a text exactly where one of the twelve characters stands. */
  lemma {:induction false} EscapedSameIff(s: string)
    ensures |Escaped(s)| >= |s|
    ensures Escaped(s) == s <==> forall i :: 0 <= i < |s| ==> !Active(s[i])
  {
    if s != [] {
      EscapedSameIff(s[1..]);
      var t := Escaped(s);
      assert t == EscapedChar(s[0]) + Escaped(s[1..]);
      assert s == [s[0]] + s[1..];
      assert forall i :: 0 < i < |s| ==> s[i] == s[1..][i - 1];
      if !Significant(s[0]) { assert t[0] == s[0] && t[1..] == Escaped(s[1..]); }
    }
  }

  /** What makes a line a list item or a fence by its first characters is not escaped. */
  lemma LineStartsStay()
    ensures Escaped("- x") == "- x" && Escaped("+ x") == "+ x" && Escaped("1. x") == "1. x" && Escaped("~~~") == "~~~"
  {
    EscapedSameIff("- x");
    EscapedSameIff("+ x");
    EscapedSameIff("1. x");
    EscapedSameIff("~~~");
  }

  // ---- Markdown fences -----------------------------------------------------------------

  function Ticks(n: nat): (r: string)
    ensures |r| == n && forall i :: 0 <= i < n ==> r[i] == '`'
  {
    seq(n, i => '`')
  }

  /** `s[i..i + n]` is a run of backticks. */
  predicate RunAt(s: string, i: nat, n: nat) {
    i + n <= |s| && forall k :: i <= k < i + n ==> s[k] == '`'
  }

  method LongestRun(content: string) returns (longest: nat)
    ensures exists i :: 0 <= i <= |content| && RunAt(content, i, longest)
    ensures forall i: nat, n: nat :: RunAt(content, i, n) ==> n <= longest
  {
    longest := 0;
    var current := 0;
    var j := 0;
    assert RunAt(content, 0, 0);
    while j < |content|
      invariant 0 <= current <= j <= |content| && current <= longest
      invariant RunAt(content, j - current, current)
      invariant current < j ==> content[j - current - 1] != '`'
      invariant exists i :: 0 <= i <= |content| && RunAt(content, i, longest)
      invariant forall i: nat, n: nat :: i + n <= j && RunAt(content, i, n) ==> n <= longest
    {
      ghost var start := j - current;
      if content[j] == '`' {
        current := current + 1;
        longest := if longest < current then current else longest;
        assert RunAt(content, start, current);
        forall i: nat, n: nat | i + n <= j + 1 && RunAt(content, i, n) ensures n <= longest {
          if i + n == j + 1 { RunStartsLate(content, i, n, start); }
        }
      } else {
        current := 0;
        forall i: nat, n: nat | i + n <= j + 1 && RunAt(content, i, n) ensures n <= longest {
          if i + n == j + 1 { RunStartsLate(content, i, n, j + 1); }
        }
        assert RunAt(content, j + 1, 0);
      }
      j := j + 1;
    }
  }

  /** A run cannot reach back across a character that is no backtick. */
  lemma RunStartsLate(s: string, i: nat, n: nat, start: nat)
    requires RunAt(s, i, n) && start <= i + n && (start > 0 ==> s[start - 1] != '`')
    ensures n > 0 ==> i >= start
  {
  }

  ghost predicate HasRun(s: string, n: int) { n >= 0 && exists i :: 0 <= i <= |s| && RunAt(s, i, n) }

  function Trimmed(content: string): string {
    if content != [] && content[|content|-1] == '\n' then content[..|content|-1] else content
  }

  function Fenced(content: string, n: nat): string {
    Ticks(n) + ['\n'] + Trimmed(content) + ['\n'] + Ticks(n)
  }

  /** `md_fence`: a fence longer than any run inside, never shorter than three. */
  method MdFence(content: string) returns (out: string, ghost n: nat)
    ensures out == Fenced(content, n) && n >= 3
    ensures forall i: nat, k: nat :: RunAt(content, i, k) ==> k < n
    ensures n == 3 || HasRun(content, n - 1)
    ensures Unfenced(out) == Some(Split('\n', Trimmed(content)))
  {
    var longest := LongestRun(content);
    var width := if longest + 1 > 3 then longest + 1 else 3;
    n := width;
    var body := if content != [] && content[|content|-1] == '\n' then content else content + ['\n'];
    assert body == Trimmed(content) + ['\n'];
    out := Ticks(width) + ['\n'] + body + Ticks(width);
    assert out == Fenced(content, n);
    FenceHolds(content, n);
  }

  /** A closing fence (section 4.5 of CommonMark): at most three spaces, at least as many
      backticks as opened the block, and only blanks behind them. */
  ghost predicate Closes(line: string, n: nat) {
    exists a: nat, k: nat :: ClosesWith(line, n, a, k)
  }

  predicate ClosesWith(line: string, n: nat, a: nat, k: nat) {
    && a <= 3 && k >= n && a + k <= |line|
    && (forall i :: 0 <= i < a ==> line[i] == ' ')
    && RunAt(line, a, k)
    && (forall i :: a + k <= i < |line| ==> line[i] == ' ' || line[i] == '\t')
  }

  /** The lines before the first one that closes. */
  ghost function UntilClosed(lines: seq<string>, n: nat): Option<seq<string>> {
    if lines == [] then None
    else if Closes(lines[0], n) then Some([])
    else match UntilClosed(lines[1..], n) case None => None case Some(r) => Some([lines[0]] + r)
  }

  /** The lines a Markdown reader takes for the content of a block that opens with bare backticks. */
  ghost function Unfenced(text: string): Option<seq<string>> {
    var lines := Split('\n', text);
    if |lines[0]| >= 3 && lines[0] == Ticks(|lines[0]|) then UntilClosed(lines[1..], |lines[0]|) else None
  }

  /** A run inside a line is a run inside the text. */
  lemma {:induction false} RunInText(s: string, j: nat, i: nat, k: nat) returns (at: nat)
    requires j < |Split('\n', s)| && RunAt(Split('\n', s)[j], i, k)
    ensures RunAt(s, at, k)
    decreases |s|
  {
    if s == [] {
      at := 0;
    } else {
      var rest := Split('\n', s[1..]);
      if s[0] == '\n' {
        if j == 0 {
          at := 0;
        } else {
          at := RunInText(s[1..], j - 1, i, k);
          at := at + 1;
          assert forall m :: at <= m < at + k ==> s[m] == s[1..][m - 1];
        }
      } else if j > 0 {
        at := RunInText(s[1..], j, i, k);
        at := at + 1;
        assert forall m :: at <= m < at + k ==> s[m] == s[1..][m - 1];
      } else if i > 0 {
        assert RunAt(rest[0], i - 1, k) by {
          forall m | i - 1 <= m < i - 1 + k ensures rest[0][m] == '`' { assert Split('\n', s)[0][m + 1] == rest[0][m]; }
        }
        at := RunInText(s[1..], 0, i - 1, k);
        at := at + 1;
        assert forall m :: at <= m < at + k ==> s[m] == s[1..][m - 1];
      } else if k == 0 {
        at := 0;
      } else {
        at := 0;
        FirstLinePrefix(s);
        assert forall m :: 0 <= m < k ==> s[m] == Split('\n', s)[0][m];
      }
    }
  }

  lemma {:induction false} FirstLinePrefix(s: string)
    ensures Split('\n', s)[0] <= s
  {
    if s != [] {
      FirstLinePrefix(s[1..]);
      var r := Split('\n', s[1..])[0];
      assert s[1..][..|r|] == r;
      assert s[..|r| + 1] == [s[0]] + r;
    }
  }

  lemma {:induction false} NoneCloses(lines: seq<string>, last: string, n: nat)
    requires forall i :: 0 <= i < |lines| ==> !Closes(lines[i], n)
    requires Closes(last, n)
    ensures UntilClosed(lines + [last], n) == Some(lines)
  {
    if lines != [] {
      assert (lines + [last])[0] == lines[0] && (lines + [last])[1..] == lines[1..] + [last];
      NoneCloses(lines[1..], last, n);
      assert lines == [lines[0]] + lines[1..];
    }
  }

  /** Embedded fences never escape: the block reads back as exactly the content's lines. */
  lemma FenceHolds(content: string, n: nat)
    requires n >= 3 && forall i: nat, k: nat :: RunAt(content, i, k) ==> k < n
    ensures Unfenced(Fenced(content, n)) == Some(Split('\n', Trimmed(content)))
  {
    var c, ticks := Trimmed(content), Ticks(n);
    SplitJoined('\n', ticks, c + ['\n'] + ticks);
    SplitJoined('\n', c, ticks);
    SplitOnePiece('\n', ticks);
    assert Fenced(content, n) == ticks + ['\n'] + (c + ['\n'] + ticks);
    assert ClosesWith(ticks, n, 0, n);
    forall j | 0 <= j < |Split('\n', c)| ensures !Closes(Split('\n', c)[j], n) {
      if Closes(Split('\n', c)[j], n) {
        var a: nat, k: nat :| ClosesWith(Split('\n', c)[j], n, a, k);
        var at := RunInText(c, j, a, k);
        assert RunAt(content, at, k);
      }
    }
    NoneCloses(Split('\n', c), ticks, n);
    assert Split('\n', Fenced(content, n))[1..] == Split('\n', c) + [ticks];
  }
}
