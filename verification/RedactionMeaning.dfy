/** What a disclosure profile says of a name, a text and a counter, read off its lists and rules
    alone (crates/logscope-app/src/redact.rs). */
module RedactionMeaning {
  import opened Redaction
  import opened Rows
  import opened Sequences

  // ---- names -------------------------------------------------------------------------

  /** Denied, or missing from an allow list that lists anything at all. */
  predicate Barred(p: Profile, name: string) {
    name in p.posture.deny || (p.posture.allow != {} && name !in p.posture.allow)
  }

  predicate Names(rule: Rule, name: string) {
    match rule
    case OmitField(f) => f == name
    case MaskField(f) => f == name
    case Pseudonymize(f, _) => f == name
    case Replace(_, _) => false
  }

  /** The first rule that names the field stands at `i`. */
  predicate Speaks(p: Profile, name: string, i: int) {
    0 <= i < |p.rules| && Names(p.rules[i], name) && forall j :: 0 <= j < i ==> !Names(p.rules[j], name)
  }

  predicate Omits(p: Profile, name: string) {
    Barred(p, name) || exists i :: 0 <= i < |p.rules| && Speaks(p, name, i) && p.rules[i].OmitField?
  }

  predicate Masks(p: Profile, name: string) {
    !Barred(p, name) && exists i :: 0 <= i < |p.rules| && Speaks(p, name, i) && p.rules[i].MaskField?
  }

  predicate Renames(p: Profile, name: string) {
    !Barred(p, name) && exists i :: 0 <= i < |p.rules| && Speaks(p, name, i) && p.rules[i].Pseudonymize?
  }

  predicate Shows(p: Profile, name: string) {
    !Barred(p, name) && forall i :: 0 <= i < |p.rules| ==> !Names(p.rules[i], name)
  }

  /** Behind rules that do not name the field, the rest decides. */
  lemma {:induction false} NobodyBefore(rules: seq<Rule>, name: string, i: nat)
    requires i <= |rules| && forall j :: 0 <= j < i ==> !Names(rules[j], name)
    ensures FirstRule(rules, name) == FirstRule(rules[i..], name)
  {
    if i > 0 {
      assert rules[1..][i - 1..] == rules[i..];
      assert !Names(rules[0], name);
      NobodyBefore(rules[1..], name, i - 1);
    } else {
      assert rules[0..] == rules;
    }
  }

  lemma SpeakerDecides(p: Profile, name: string, i: int)
    requires Speaks(p, name, i) && !Barred(p, name)
    ensures Decide(p, name) == match p.rules[i]
      case OmitField(_) => Dropped
      case MaskField(_) => Masked
      case Pseudonymize(_, token) => Tokened(token)
      case Replace(_, _) => Shown
  {
    NobodyBefore(p.rules, name, i);
    assert p.rules[i..][0] == p.rules[i];
  }

  /** Two rules cannot both speak for a name. */
  lemma OneSpeaker(p: Profile, name: string, i: int, j: int)
    requires Speaks(p, name, i) && Speaks(p, name, j)
    ensures i == j
  {
  }

  lemma FirstSpeaker(p: Profile, name: string) returns (i: int)
    ensures Speaks(p, name, i) || (i == |p.rules| && forall j :: 0 <= j < i ==> !Names(p.rules[j], name))
  {
    i := 0;
    while i < |p.rules| && !Names(p.rules[i], name)
      invariant 0 <= i <= |p.rules| && forall j :: 0 <= j < i ==> !Names(p.rules[j], name)
    {
      i := i + 1;
    }
  }

  /** Every name is omitted, masked, renamed or shown, and the profile's verdict says which. */
  lemma NameMeans(p: Profile, name: string)
    ensures Decide(p, name).Dropped? <==> Omits(p, name)
    ensures Decide(p, name).Masked? <==> Masks(p, name)
    ensures Decide(p, name).Tokened? <==> Renames(p, name)
    ensures Decide(p, name).Shown? <==> Shows(p, name)
  {
    if !Barred(p, name) {
      var i := FirstSpeaker(p, name);
      if Speaks(p, name, i) {
        SpeakerDecides(p, name, i);
        forall j | Speaks(p, name, j) ensures j == i { OneSpeaker(p, name, i, j); }
        hide Decide, Names, Barred;
      } else {
        NobodyBefore(p.rules, name, i);
        assert p.rules[i..] == [];
      }
    }
  }

  /** What becomes of a named value. */
  lemma ValueMeans(p: Profile, name: string, s: string)
    ensures FieldValue(p, name, s).None? <==> Omits(p, name)
    ensures Masks(p, name) ==> FieldValue(p, name, s) == Some("[REDACTED]")
    ensures forall i :: Speaks(p, name, i) && p.rules[i].Pseudonymize? && !Barred(p, name) ==>
      FieldValue(p, name, s) == Some(p.rules[i].token(s))
    ensures Shows(p, name) ==> FieldValue(p, name, s) == Some(TextOf(p, s))
  {
    NameMeans(p, name);
    hide Omits, Masks, Shows, Renames, TextOf, Barred;
    forall i | Speaks(p, name, i) && p.rules[i].Pseudonymize? && !Barred(p, name)
      ensures FieldValue(p, name, s) == Some(p.rules[i].token(s))
    {
      SpeakerDecides(p, name, i);
      hide Decide, Speaks;
    }
    hide Decide;
  }

  /** What becomes of a string under a key of a plain object. */
  lemma KeyedMeans(p: Profile, key: string, s: string)
    ensures var closed := key in {"path", "source_path", "file_path", "original_path"} && !p.posture.pathPolicy.Include?;
      && (closed && p.posture.pathPolicy.Omit? ==> KeyedText(p, key, s) == "[path omitted]")
      && (closed && p.posture.pathPolicy.Basename? ==> LastSegment(s, KeyedText(p, key, s)))
      && (!closed && Omits(p, key) ==> KeyedText(p, key, s) == "[omitted by disclosure profile]")
      && (!closed && !Omits(p, key) ==> FieldValue(p, key, s) == Some(KeyedText(p, key, s)))
  {
    ValueMeans(p, key, s);
    BasenameMeans(s);
    hide FieldValue, Omits, BasenameOf;
  }

  /** What follows the last separator of a path, or all of it. */
  predicate LastSegment(path: string, r: string) {
    var k := |path| - |r|;
    && k >= 0 && path[k..] == r
    && (k == 0 || path[k - 1] == '/' || path[k - 1] == '\\')
    && forall i :: 0 <= i < |r| ==> r[i] != '/' && r[i] != '\\'
  }

  lemma {:induction false} BasenameMeans(path: string)
    ensures LastSegment(path, BasenameOf(path))
  {
    if path != [] && !Separator(path[|path|-1]) {
      var front, last, tail := path[..|path|-1], path[|path|-1], BasenameOf(path[..|path|-1]);
      BasenameMeans(front);
      assert path == front + [last];
      assert path[|front| - |tail|..] == front[|front| - |tail|..] + [last];
    }
  }

  // ---- texts -------------------------------------------------------------------------

  /** A text on its way through the rules: one text before each rule, and the one left over. */
  predicate Stages(rules: seq<Rule>, s: string, c: seq<string>) {
    && |c| == |rules| + 1 && c[0] == s
    && forall i :: 0 <= i < |rules| ==> Passes(rules[i], c[i], c[i + 1])
  }

  predicate Passes(rule: Rule, before: string, after: string) {
    after == if rule.Replace? && rule.hits(before) > 0 then rule.rewrite(before) else before
  }

  function HitsAt(rules: seq<Rule>, c: seq<string>): (r: seq<int>)
    requires |c| == |rules| + 1
    ensures |r| == |rules| && forall i :: 0 <= i < |r| ==> r[i] == if rules[i].Replace? then rules[i].hits(c[i]) else 0
  {
    seq(|rules|, i requires 0 <= i < |rules| => if rules[i].Replace? then rules[i].hits(c[i]) else 0)
  }

  lemma {:induction false} RulesMean(rules: seq<Rule>, s: string) returns (c: seq<string>)
    ensures Stages(rules, s, c)
    ensures Rewritten(rules, s) == c[|rules|] && Replacements(rules, s) == Sum(HitsAt(rules, c))
  {
    if rules == [] {
      c := [s];
    } else {
      var front, rule := rules[..|rules|-1], rules[|rules|-1];
      var before := RulesMean(front, s);
      c := before + [Rewritten(rules, s)];
      assert Passes(rule, c[|front|], c[|front| + 1]);
      forall i | 0 <= i < |front| ensures Passes(rules[i], c[i], c[i + 1]) {
        assert Passes(front[i], before[i], before[i + 1]);
      }
      var hits := HitsAt(front, before);
      assert HitsAt(rules, c) == hits + [HitsAt(rules, c)[|front|]];
      SumSnoc(hits, HitsAt(rules, c)[|front|]);
    }
  }

  /** A shown text is what the rules leave, in order, or its first characters and the notice. */
  lemma TextMeans(p: Profile, s: string) returns (c: seq<string>)
    ensures Stages(p.rules, s, c)
    ensures var left, max := c[|p.rules|], p.posture.maxText;
      && (|left| <= max ==> TextOf(p, s) == left)
      && (|left| > max ==> TextOf(p, s) == left[..max] + " …[truncated by disclosure profile]")
      && TextCounts(p, s) == Counts(0, 0, Sum(HitsAt(p.rules, c)), 0, if |left| > max then 1 else 0, 0)
  {
    c := RulesMean(p.rules, s);
    hide Rewritten, Replacements, HitsAt, Sum, Stages;
  }

  // ---- counters ----------------------------------------------------------------------

  /** The name a position is judged by. A path key is judged by the lists and rules only where
      paths may leave. */
  function JudgedName(p: Profile, at: Position): Option<string> {
    match at
    case Free(_) => None
    case Named(n, _) => Some(n)
    case Path(k, _) => if p.posture.pathPolicy.Include? then Some(k) else None
  }

  predicate Closed(p: Profile, at: Position) { at.Path? && !p.posture.pathPolicy.Include? }

  /** Its text goes through the rules and the bound. */
  predicate Written(p: Profile, at: Position) {
    at.Free? || (JudgedName(p, at).Some? && Shows(p, JudgedName(p, at).value))
  }

  function WasOmitted(p: Profile): Position -> bool {
    (at: Position) => JudgedName(p, at).Some? && Omits(p, JudgedName(p, at).value)
  }

  function WasMasked(p: Profile): Position -> bool {
    (at: Position) => JudgedName(p, at).Some? && Masks(p, JudgedName(p, at).value)
  }

  function WasRenamed(p: Profile): Position -> bool {
    (at: Position) => JudgedName(p, at).Some? && Renames(p, JudgedName(p, at).value)
  }

  function WasClosed(p: Profile): Position -> bool { (at: Position) => Closed(p, at) }

  function WasCut(p: Profile): Position -> bool {
    (at: Position) => Written(p, at) && |Rewritten(p.rules, at.s)| > p.posture.maxText
  }

  function HitsIn(p: Profile): Position -> int {
    (at: Position) => if Written(p, at) then Replacements(p.rules, at.s) else 0
  }

  function One(b: bool): nat { if b then 1 else 0 }

  lemma EffectMeans(p: Profile, at: Position)
    ensures var c := Effect(p, at);
      && c.omitted == One(WasOmitted(p)(at)) && c.masked == One(WasMasked(p)(at)) && c.pseudonymized == One(WasRenamed(p)(at))
      && c.paths == One(WasClosed(p)(at)) && c.truncated == One(WasCut(p)(at)) && c.replaced == HitsIn(p)(at)
  {
    var name := JudgedName(p, at);
    if name.Some? { NameMeans(p, name.value); }
    hide Omits, Masks, Renames, Shows, Decide, Rewritten, Replacements;
  }

  lemma OneMore(p: Position -> bool, at: seq<Position>, x: Position)
    ensures |Places(p, at + [x])| == |Places(p, at)| + One(p(x))
  {
    PlacesSnoc(p, at, x);
    assert |at| !in Places(p, at);
    hide Places;
  }

  /** Over the positions a walk meets, each counter is the number of those it names: the omitted
      are those whose name is omitted, and so for the masked, the renamed, the closed paths and
      the texts that were cut. The replacements are the hits in the texts that were written. */
  lemma {:induction false} CountersMean(p: Profile, at: seq<Position>)
    ensures Effects(p, at).omitted == |Places(WasOmitted(p), at)|
    ensures Effects(p, at).masked == |Places(WasMasked(p), at)|
    ensures Effects(p, at).pseudonymized == |Places(WasRenamed(p), at)|
    ensures Effects(p, at).paths == |Places(WasClosed(p), at)|
    ensures Effects(p, at).truncated == |Places(WasCut(p), at)|
    ensures Effects(p, at).replaced == Sum(Apply(HitsIn(p), at))
  {
    if at != [] {
      var front, x := at[..|at|-1], at[|at|-1];
      CountersMean(p, front);
      assert at == front + [x];
      EffectsSnoc(p, front, x);
      EffectMeans(p, x);
      OneMore(WasOmitted(p), front, x);
      OneMore(WasMasked(p), front, x);
      OneMore(WasRenamed(p), front, x);
      OneMore(WasClosed(p), front, x);
      OneMore(WasCut(p), front, x);
      ApplySnoc(HitsIn(p), front, x);
      SumSnoc(Apply(HitsIn(p), front), HitsIn(p)(x));
      hide *;
    }
  }

  // ---- display fields -----------------------------------------------------------------

  /** A display field is replaced by its name and a notice exactly when its name is omitted. */
  lemma DisplayMeans(p: Profile, entries: seq<Entry>)
    requires IsField(entries)
    ensures var name := FieldName(entries);
      if Omits(p, name) then
        Projected(p, Object(entries)) ==
          Object([Entry("name", Text(name)), Entry("omitted_by_disclosure_profile", Bool(true))])
      else
        exists shown :: FieldValue(p, name, FieldText(p.render, entries)) == Some(shown) &&
          Projected(p, Object(entries)) == Object(WithValue(entries, Text(shown)))
  {
    ObjectWalk(p, entries);
    ValueMeans(p, FieldName(entries), FieldText(p.render, entries));
    hide Projected, FieldValue, IsField, FieldName, FieldText, Omits, WithValue, Positions, Effects;
  }
}
