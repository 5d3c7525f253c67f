/** The disclosure projection over JSON trees (crates/logscope-app/src/redact.rs). */
module Redaction {
  import opened Rows
  import opened Sequences

  // ---- data model --------------------------------------------------------------------

  datatype Json = Null | Bool(b: bool) | Number(digits: string) | Text(s: string)
    | Array(items: seq<Json>) | Object(entries: seq<Entry>)

  datatype Entry = Entry(key: string, value: Json)

  datatype PathPolicy = Omit | Basename | Include

  /** `Replace` stands for both the exact and the regex rule: a rewrite and its hit count. */
  datatype Rule = OmitField(field: string) | MaskField(field: string)
    | Replace(rewrite: string -> string, hits: string -> nat)
    | Pseudonymize(field: string, token: string -> string)

  datatype Posture = Posture(pathPolicy: PathPolicy, allow: set<string>, deny: set<string>, maxText: nat)

  /** `render` prints a non-string value of a display field. */
  datatype Profile = Profile(rules: seq<Rule>, posture: Posture, render: Json -> string)

  datatype Counts = Counts(omitted: nat, masked: nat, replaced: nat, pseudonymized: nat, truncated: nat, paths: nat) {
    function Plus(c: Counts): Counts {
      Counts(omitted + c.omitted, masked + c.masked, replaced + c.replaced,
        pseudonymized + c.pseudonymized, truncated + c.truncated, paths + c.paths)
    }
  }

  const NONE := Counts(0, 0, 0, 0, 0, 0)
  const MASK := "[REDACTED]"
  const OMITTED := "[omitted by disclosure profile]"
  const NO_PATH := "[path omitted]"
  const CUT := " …[truncated by disclosure profile]"
  const MARKER := "omitted_by_disclosure_profile"

  // ---- text --------------------------------------------------------------------------

  /** The replacement rules, in order. */
  function Rewritten(rules: seq<Rule>, s: string): string {
    if rules == [] then s
    else
      var before, rule := Rewritten(rules[..|rules|-1], s), rules[|rules|-1];
      if rule.Replace? && rule.hits(before) > 0 then rule.rewrite(before) else before
  }

  function Replacements(rules: seq<Rule>, s: string): nat {
    if rules == [] then 0
    else
      var rule := rules[|rules|-1];
      Replacements(rules[..|rules|-1], s) + if rule.Replace? then rule.hits(Rewritten(rules[..|rules|-1], s)) else 0
  }

  function Bounded(max: nat, s: string): string { if |s| > max then s[..max] + CUT else s }

  function TextOf(p: Profile, s: string): string { Bounded(p.posture.maxText, Rewritten(p.rules, s)) }

  function TextCounts(p: Profile, s: string): Counts {
    Counts(0, 0, Replacements(p.rules, s), 0, if |Rewritten(p.rules, s)| > p.posture.maxText then 1 else 0, 0)
  }

  // ---- named fields ------------------------------------------------------------------

  datatype Disposition = Dropped | Masked | Tokened(token: string -> string) | Shown

  predicate Targets(rule: Rule, name: string) { !rule.Replace? && rule.field == name }

  /** The first rule that names the field decides. */
  function FirstRule(rules: seq<Rule>, name: string): Disposition {
    if rules == [] then Shown
    else if Targets(rules[0], name) then
      match rules[0] case OmitField(_) => Dropped case MaskField(_) => Masked case Pseudonymize(_, t) => Tokened(t) case _ => Shown
    else FirstRule(rules[1..], name)
  }

  /** Deny wins over allow; an allow list drops every name it lacks. */
  function Decide(p: Profile, name: string): Disposition {
    if name in p.posture.deny || (p.posture.allow != {} && name !in p.posture.allow) then Dropped
    else FirstRule(p.rules, name)
  }

  function FieldValue(p: Profile, name: string, value: string): Option<string> {
    match Decide(p, name)
    case Dropped => None
    case Masked => Some(MASK)
    case Tokened(t) => Some(t(value))
    case Shown => Some(TextOf(p, value))
  }

  function FieldCounts(p: Profile, name: string, value: string): Counts {
    match Decide(p, name)
    case Dropped => NONE.(omitted := 1)
    case Masked => NONE.(masked := 1)
    case Tokened(_) => NONE.(pseudonymized := 1)
    case Shown => TextCounts(p, value)
  }

  // ---- the tree ----------------------------------------------------------------------

  predicate IsPathKey(key: string) { key in {"path", "source_path", "file_path", "original_path"} }

  predicate HasKey(entries: seq<Entry>, key: string) { exists i :: 0 <= i < |entries| && entries[i].key == key }

  function ValueAt(entries: seq<Entry>, key: string): (v: Json)
    requires HasKey(entries, key)
    ensures exists i :: 0 <= i < |entries| && entries[i] == Entry(key, v)
  {
    if entries[0].key == key then entries[0].value else ValueAt(entries[1..], key)
  }

  /** A `{name, value}` pair is a projected display field. */
  predicate IsField(entries: seq<Entry>) { HasKey(entries, "name") && HasKey(entries, "value") }

  function FieldName(entries: seq<Entry>): string
    requires IsField(entries)
  {
    var v := ValueAt(entries, "name");
    if v.Text? then v.s else ""
  }

  function FieldText(render: Json -> string, entries: seq<Entry>): string
    requires IsField(entries)
  {
    var v := ValueAt(entries, "value");
    if v.Text? then v.s else render(v)
  }

  function WithValue(entries: seq<Entry>, v: Json): (r: seq<Entry>)
    ensures |r| == |entries|
    ensures forall i :: 0 <= i < |entries| ==> r[i] == if entries[i].key == "value" then Entry("value", v) else entries[i]
  {
    seq(|entries|, i requires 0 <= i < |entries| => if entries[i].key == "value" then Entry("value", v) else entries[i])
  }

  predicate Separator(c: char) { c == '/' || c == '\\' }

  function BasenameOf(path: string): (r: string)
    ensures |r| <= |path| && forall i :: 0 <= i < |r| ==> !Separator(r[i])
  {
    if path == [] || Separator(path[|path|-1]) then []
    else BasenameOf(path[..|path|-1]) + [path[|path|-1]]
  }

  /** A string under a key that is not a display field. */
  function KeyedText(p: Profile, key: string, s: string): string {
    if IsPathKey(key) && !p.posture.pathPolicy.Include? then
      if p.posture.pathPolicy.Omit? then NO_PATH else BasenameOf(s)
    else
      FieldValue(p, key, s).GetOr(OMITTED)
  }

  function Projected(p: Profile, j: Json): Json {
    match j
    case Text(s) => Text(TextOf(p, s))
    case Array(items) => Array(seq(|items|, i requires 0 <= i < |items| => Projected(p, items[i])))
    case Object(entries) =>
      if IsField(entries) then
        match FieldValue(p, FieldName(entries), FieldText(p.render, entries))
        case None => Object([Entry("name", Text(FieldName(entries))), Entry(MARKER, Bool(true))])
        case Some(shown) => Object(WithValue(entries, Text(shown)))
      else
        Object(seq(|entries|, i requires 0 <= i < |entries| => ProjectedEntry(p, entries[i])))
    case _ => j
  }

  function ProjectedEntry(p: Profile, e: Entry): Entry {
    Entry(e.key, if e.value.Text? then Text(KeyedText(p, e.key, e.value.s)) else Projected(p, e.value))
  }

  // ---- positions: where strings stand, independent of any profile ------------------------

  datatype Position = Free(s: string) | Named(name: string, s: string) | Path(key: string, s: string)

  function Positions(render: Json -> string, j: Json): seq<Position> {
    match j
    case Text(s) => [Free(s)]
    case Array(items) => Flatten(seq(|items|, i requires 0 <= i < |items| => Positions(render, items[i])))
    case Object(entries) =>
      if IsField(entries) then
        [Named(FieldName(entries), FieldText(render, entries))]
      else
        Flatten(seq(|entries|, i requires 0 <= i < |entries| => EntryPositions(render, entries[i])))
    case _ => []
  }

  function EntryPositions(render: Json -> string, e: Entry): seq<Position> {
    if !e.value.Text? then Positions(render, e.value)
    else [if IsPathKey(e.key) then Path(e.key, e.value.s) else Named(e.key, e.value.s)]
  }

  /** What one position adds to the counters. */
  function Effect(p: Profile, at: Position): Counts {
    match at
    case Free(s) => TextCounts(p, s)
    case Named(n, s) => FieldCounts(p, n, s)
    case Path(k, s) => if p.posture.pathPolicy.Include? then FieldCounts(p, k, s) else NONE.(paths := 1)
  }

  function Effects(p: Profile, at: seq<Position>): Counts {
    if at == [] then NONE else Effects(p, at[..|at|-1]).Plus(Effect(p, at[|at|-1]))
  }

  lemma EffectsSnoc(p: Profile, at: seq<Position>, x: Position)
    ensures Effects(p, at + [x]) == Effects(p, at).Plus(Effect(p, x))
  {
    assert (at + [x])[..|at|] == at;
  }

  lemma {:induction false} EffectsConcat(p: Profile, s: seq<Position>, t: seq<Position>)
    ensures Effects(p, s + t) == Effects(p, s).Plus(Effects(p, t))
  {
    if t == [] {
      assert s + t == s;
    } else {
      var front, x := t[..|t|-1], t[|t|-1];
      EffectsConcat(p, s, front);
      SplitLast(s, t);
      SplitLast([], t);
      hide Effects, Effect;
      EffectsSnoc(p, s + front, x);
      EffectsSnoc(p, front, x);
    }
  }

  // ---- the walk ------------------------------------------------------------------------

  /** The running counters of one projection. */
  class Summary {
    var counts: Counts

    constructor ()
      ensures counts == NONE
    {
      counts := NONE;
    }

    /** `Projection::text`. */
    method ProjectText(p: Profile, input: string) returns (out: string)
      modifies this
      ensures out == TextOf(p, input) && counts == old(counts).Plus(TextCounts(p, input))
    {
      out := input;
      var i := 0;
      assert p.rules[..0] == [];
      while i < |p.rules|
        invariant i <= |p.rules| && out == Rewritten(p.rules[..i], input)
        invariant counts == old(counts).(replaced := old(counts).replaced + Replacements(p.rules[..i], input))
      {
        assert p.rules[..i + 1][..i] == p.rules[..i];
        match p.rules[i] {
          case Replace(rewrite, hits) =>
            var n := hits(out);
            if n > 0 {
              counts := counts.(replaced := counts.replaced + n);
              out := rewrite(out);
            }
          case _ =>
        }
        i := i + 1;
      }
      assert p.rules[..i] == p.rules;
      if |out| > p.posture.maxText {
        counts := counts.(truncated := counts.truncated + 1);
        out := out[..p.posture.maxText] + CUT;
      }
    }

    /** `Projection::field_value`. */
    method ProjectField(p: Profile, name: string, value: string) returns (out: Option<string>)
      modifies this
      ensures out == FieldValue(p, name, value) && counts == old(counts).Plus(FieldCounts(p, name, value))
    {
      if name in p.posture.deny || (p.posture.allow != {} && name !in p.posture.allow) {
        counts := counts.(omitted := counts.omitted + 1);
        return None;
      }
      var i := 0;
      while i < |p.rules|
        invariant i <= |p.rules| && counts == old(counts)
        invariant FirstRule(p.rules, name) == FirstRule(p.rules[i..], name)
      {
        assert p.rules[i..][1..] == p.rules[i + 1..];
        match p.rules[i] {
          case OmitField(f) =>
            if f == name { counts := counts.(omitted := counts.omitted + 1); return None; }
          case MaskField(f) =>
            if f == name { counts := counts.(masked := counts.masked + 1); return Some(MASK); }
          case Pseudonymize(f, token) =>
            if f == name { counts := counts.(pseudonymized := counts.pseudonymized + 1); return Some(token(value)); }
          case Replace(_, _) =>
        }
        i := i + 1;
      }
      var shown := ProjectText(p, value);
      out := Some(shown);
    }

    /** `Projection::walk`. The counters grow by exactly the effects of the positions met. */
    method Walk(p: Profile, j: Json) returns (r: Json)
      modifies this
      ensures r == Projected(p, j)
      ensures counts == old(counts).Plus(Effects(p, Positions(p.render, j)))
      decreases j, 4
    {
      match j {
        case Text(s) =>
          OneEffect(p, Free(s));
          r := WalkText(p, s);
        case Array(items) =>
          ArrayWalk(p, items);
          hide Projected, Positions, Effects, Flatten, Counts.Plus;
          r := WalkItems(p, items);
        case Object(entries) =>
          hide Projected, Positions, Effects, Flatten, Counts.Plus;
          r := WalkObject(p, entries);
        case _ =>
          r := j;
          NothingHere(p, j, counts);
      }
    }

    method WalkText(p: Profile, s: string) returns (r: Json)
      modifies this
      ensures r == Projected(p, Text(s))
      ensures counts == old(counts).Plus(Effects(p, Positions(p.render, Text(s))))
    {
      var out := ProjectText(p, s);
      OneEffect(p, Free(s));
      r := Text(out);
    }

    method WalkItems(p: Profile, items: seq<Json>) returns (r: Json)
      modifies this
      ensures r == Array(ProjectedItems(p, items))
      ensures counts == old(counts).Plus(Effects(p, Flatten(ItemParts(p.render, items))))
      decreases Array(items), 3
    {
      ghost var parts, before := ItemParts(p.render, items), counts;
      NoEffect(p, parts, counts);
      hide Projected, Positions, Effects, Flatten, Counts.Plus;
      var out := [];
      var i := 0;
      while i < |items|
        invariant i <= |items| && |out| == i
        invariant forall k :: 0 <= k < i ==> out[k] == Projected(p, items[k])
        invariant counts == before.Plus(Effects(p, Flatten(parts[..i])))
      {
        PartEffects(p, parts, i, before);
        var child := Walk(p, items[i]);
        out := out + [child];
        i := i + 1;
      }
      assert parts[..i] == parts;
      assert out == ProjectedItems(p, items);
      r := Array(out);
    }

    method WalkObject(p: Profile, entries: seq<Entry>) returns (r: Json)
      modifies this
      ensures r == Projected(p, Object(entries))
      ensures counts == old(counts).Plus(Effects(p, Positions(p.render, Object(entries))))
      decreases Object(entries), 3
    {
      ObjectWalk(p, entries);
      hide Projected, Positions, Effects, Flatten, Counts.Plus;
      if IsField(entries) {
        var name, value := FieldName(entries), FieldText(p.render, entries);
        hide FieldValue, FieldCounts;
        var out := ProjectField(p, name, value);
        match out {
          case None => r := Object([Entry("name", Text(name)), Entry(MARKER, Bool(true))]);
          case Some(shown) => r := Object(WithValue(entries, Text(shown)));
        }
      } else {
        r := WalkEntries(p, entries);
      }
    }

    method WalkEntries(p: Profile, entries: seq<Entry>) returns (r: Json)
      modifies this
      ensures r == Object(ProjectedEntries(p, entries))
      ensures counts == old(counts).Plus(Effects(p, Flatten(EntryParts(p.render, entries))))
      decreases Object(entries), 2
    {
      ghost var parts, before := EntryParts(p.render, entries), counts;
      NoEffect(p, parts, counts);
      hide ProjectedEntry, EntryPositions, Effects, Flatten, Counts.Plus;
      var out := [];
      var i := 0;
      while i < |entries|
        invariant i <= |entries| && |out| == i
        invariant forall k :: 0 <= k < i ==> out[k] == ProjectedEntry(p, entries[k])
        invariant counts == before.Plus(Effects(p, Flatten(parts[..i])))
      {
        PartEffects(p, parts, i, before);
        var e := WalkEntry(p, entries, i);
        out := out + [e];
        i := i + 1;
      }
      assert parts[..i] == parts;
      assert out == ProjectedEntries(p, entries);
      r := Object(out);
    }

    method WalkEntry(p: Profile, entries: seq<Entry>, i: nat) returns (r: Entry)
      requires i < |entries|
      modifies this
      ensures r == ProjectedEntry(p, entries[i])
      ensures counts == old(counts).Plus(Effects(p, EntryPositions(p.render, entries[i])))
      decreases Object(entries), 1
    {
      var e := entries[i];
      EntryWalk(p, e);
      match e.value {
        case Text(s) =>
          hide ProjectedEntry, EntryPositions, Effects, FieldValue, FieldCounts;
          if IsPathKey(e.key) && !p.posture.pathPolicy.Include? {
            counts := counts.(paths := counts.paths + 1);
            return Entry(e.key, Text(if p.posture.pathPolicy.Omit? then NO_PATH else BasenameOf(s)));
          }
          var out := ProjectField(p, e.key, s);
          r := Entry(e.key, Text(out.GetOr(OMITTED)));
        case _ =>
          hide ProjectedEntry, EntryPositions, Effects, Projected, Positions, Counts.Plus;
          var child := Walk(p, e.value);
          r := Entry(e.key, child);
      }
    }
  }

  function ItemParts(render: Json -> string, items: seq<Json>): seq<seq<Position>> {
    seq(|items|, i requires 0 <= i < |items| => Positions(render, items[i]))
  }

  function EntryParts(render: Json -> string, entries: seq<Entry>): seq<seq<Position>> {
    seq(|entries|, i requires 0 <= i < |entries| => EntryPositions(render, entries[i]))
  }

  function ProjectedItems(p: Profile, items: seq<Json>): (r: seq<Json>)
    ensures |r| == |items| && forall i :: 0 <= i < |items| ==> r[i] == Projected(p, items[i])
  {
    seq(|items|, i requires 0 <= i < |items| => Projected(p, items[i]))
  }

  function ProjectedEntries(p: Profile, entries: seq<Entry>): (r: seq<Entry>)
    ensures |r| == |entries| && forall i :: 0 <= i < |entries| ==> r[i] == ProjectedEntry(p, entries[i])
  {
    seq(|entries|, i requires 0 <= i < |entries| => ProjectedEntry(p, entries[i]))
  }

  lemma ArrayWalk(p: Profile, items: seq<Json>)
    ensures Projected(p, Array(items)) == Array(ProjectedItems(p, items))
    ensures Positions(p.render, Array(items)) == Flatten(ItemParts(p.render, items))
  {
    hide Flatten, ProjectedItems;
    var s := seq(|items|, i requires 0 <= i < |items| => Projected(p, items[i]));
    assert Projected(p, Array(items)) == Array(s);
    assert s == ProjectedItems(p, items);
    var t := seq(|items|, i requires 0 <= i < |items| => Positions(p.render, items[i]));
    assert Positions(p.render, Array(items)) == Flatten(t);
    assert t == ItemParts(p.render, items);
  }

  lemma ObjectWalk(p: Profile, entries: seq<Entry>)
    ensures IsField(entries) ==>
      var name, value := FieldName(entries), FieldText(p.render, entries);
      && Projected(p, Object(entries)) == (match FieldValue(p, name, value)
        case None => Object([Entry("name", Text(name)), Entry(MARKER, Bool(true))])
        case Some(shown) => Object(WithValue(entries, Text(shown))))
      && Effects(p, Positions(p.render, Object(entries))) == FieldCounts(p, name, value)
    ensures !IsField(entries) ==>
      && Projected(p, Object(entries)) == Object(ProjectedEntries(p, entries))
      && Positions(p.render, Object(entries)) == Flatten(EntryParts(p.render, entries))
  {
    hide Flatten, ProjectedEntries, ProjectedEntry, EntryPositions, FieldValue, FieldCounts;
    if IsField(entries) {
      OneEffect(p, Named(FieldName(entries), FieldText(p.render, entries)));
      hide Effects;
    } else {
      var s := seq(|entries|, i requires 0 <= i < |entries| => ProjectedEntry(p, entries[i]));
      assert Projected(p, Object(entries)) == Object(s);
      assert s == ProjectedEntries(p, entries);
      var t := seq(|entries|, i requires 0 <= i < |entries| => EntryPositions(p.render, entries[i]));
      assert Positions(p.render, Object(entries)) == Flatten(t);
      assert t == EntryParts(p.render, entries);
    }
  }

  lemma EntryWalk(p: Profile, e: Entry)
    ensures !e.value.Text? ==> ProjectedEntry(p, e) == Entry(e.key, Projected(p, e.value))
    ensures !e.value.Text? ==> EntryPositions(p.render, e) == Positions(p.render, e.value)
    ensures e.value.Text? ==>
      var hidden := IsPathKey(e.key) && !p.posture.pathPolicy.Include?;
      && ProjectedEntry(p, e) == Entry(e.key, Text(
        KeyedText(p, e.key, e.value.s)))
      && Effects(p, EntryPositions(p.render, e)) ==
        (if hidden then NONE.(paths := 1) else FieldCounts(p, e.key, e.value.s))
  {
    if e.value.Text? {
      TextEntry(p, e.key, e.value.s);
      hide *;
    } else {
      hide Effects, Effect, FieldValue, FieldCounts, Positions, Projected, KeyedText;
    }
  }

  lemma TextEntry(p: Profile, key: string, s: string)
    ensures ProjectedEntry(p, Entry(key, Text(s))) == Entry(key, Text(KeyedText(p, key, s)))
    ensures Effects(p, EntryPositions(p.render, Entry(key, Text(s)))) ==
      if IsPathKey(key) && !p.posture.pathPolicy.Include? then NONE.(paths := 1) else FieldCounts(p, key, s)
  {
    hide KeyedText, FieldCounts, Projected, Positions;
    OneEffect(p, if IsPathKey(key) then Path(key, s) else Named(key, s));
    hide Effects;
  }

  lemma OneEffect(p: Profile, at: Position)
    ensures Effects(p, [at]) == Effect(p, at)
  {
    hide Effect;
    EffectsSnoc(p, [], at);
    hide Effects;
    assert [] + [at] == [at];
    NothingMet(p);
  }

  lemma NothingMet(p: Profile)
    ensures Effects(p, []) == NONE
  {
  }

  lemma NoEffect(p: Profile, parts: seq<seq<Position>>, c: Counts)
    ensures c.Plus(Effects(p, Flatten(parts[..0]))) == c
  {
  }

  lemma NothingHere(p: Profile, j: Json, c: Counts)
    requires j.Null? || j.Bool? || j.Number?
    ensures Projected(p, j) == j && c.Plus(Effects(p, Positions(p.render, j))) == c
  {
  }

  lemma PartEffects(p: Profile, parts: seq<seq<Position>>, i: nat, c: Counts)
    requires i < |parts|
    ensures c.Plus(Effects(p, Flatten(parts[..i + 1]))) == c.Plus(Effects(p, Flatten(parts[..i]))).Plus(Effects(p, parts[i]))
  {
    assert parts[..i + 1] == parts[..i] + [parts[i]];
    FlattenSnoc(parts[..i], parts[i]);
    EffectsConcat(p, Flatten(parts[..i]), parts[i]);
    hide Effects, Flatten;
  }
}
