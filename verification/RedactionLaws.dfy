/** What the disclosure projection guarantees about every tree
    (crates/logscope-app/src/redact.rs). */
module RedactionLaws {
  import opened Redaction
  import opened Rows
  import opened Sequences

  // ---- shape -------------------------------------------------------------------------

  /** Same tree up to the text of its strings; only a display field may be cut down to its
      name and a marker. */
  ghost predicate SameShape(a: Json, b: Json) {
    match a
    case Text(_) => b.Text?
    case Array(x) => b.Array? && |b.items| == |x| && forall i :: 0 <= i < |x| ==> SameShape(x[i], b.items[i])
    case Object(x) =>
      b.Object? &&
      if IsField(x) then
        || b.entries == [Entry("name", Text(FieldName(x))), Entry(MARKER, Bool(true))]
        || (|b.entries| == |x| && forall i :: 0 <= i < |x| ==>
            b.entries[i].key == x[i].key && if x[i].key == "value" then b.entries[i].value.Text? else b.entries[i] == x[i])
      else
        |b.entries| == |x| && forall i :: 0 <= i < |x| ==> b.entries[i].key == x[i].key && SameShape(x[i].value, b.entries[i].value)
    case _ => b == a
  }

  /** Array lengths, key sets and non-string leaves survive every profile. */
  lemma {:induction false} ShapeKept(p: Profile, j: Json)
    ensures SameShape(j, Projected(p, j))
  {
    match j
    case Array(items) =>
      forall i | 0 <= i < |items| ensures SameShape(items[i], Projected(p, items[i])) { ShapeKept(p, items[i]); }
      ArrayWalk(p, items);
    case Object(entries) =>
      ObjectWalk(p, entries);
      if !IsField(entries) {
        forall i | 0 <= i < |entries| ensures SameShape(entries[i].value, ProjectedEntry(p, entries[i]).value) {
          if !entries[i].value.Text? { ShapeKept(p, entries[i].value); }
        }
      }
    case _ =>
  }

  /** Deny beats allow, an allow list drops every name it lacks, and among the rules the first
      that names the field decides. */
  lemma WhoDecides(p: Profile, name: string, i: nat)
    requires i < |p.rules| && Targets(p.rules[i], name)
    requires forall j :: 0 <= j < i ==> !Targets(p.rules[j], name)
    ensures var listed := name in p.posture.deny || (p.posture.allow != {} && name !in p.posture.allow);
      && (Decide(p, name).Dropped? <==> listed || p.rules[i].OmitField?)
      && (Decide(p, name).Masked? <==> !listed && p.rules[i].MaskField?)
      && (Decide(p, name).Tokened? <==> !listed && p.rules[i].Pseudonymize?)
  {
    FirstDecides(p.rules, name, i);
  }

  lemma {:induction false} FirstDecides(rules: seq<Rule>, name: string, i: nat)
    requires i < |rules| && Targets(rules[i], name)
    requires forall j :: 0 <= j < i ==> !Targets(rules[j], name)
    ensures FirstRule(rules, name) == FirstRule([rules[i]], name)
    ensures (FirstRule(rules, name).Dropped? <==> rules[i].OmitField?) && (FirstRule(rules, name).Masked? <==> rules[i].MaskField?)
    ensures FirstRule(rules, name).Tokened? <==> rules[i].Pseudonymize?
  {
    if i > 0 {
      assert rules[1..][i - 1] == rules[i];
      FirstDecides(rules[1..], name, i - 1);
    }
  }

  lemma WithValueIsField(entries: seq<Entry>, v: string)
    requires IsField(entries)
    ensures IsField(WithValue(entries, Text(v)))
    ensures FieldName(WithValue(entries, Text(v))) == FieldName(entries)
    ensures forall render :: FieldText(render, WithValue(entries, Text(v))) == v
    ensures WithValue(WithValue(entries, Text(v)), Text(v)) == WithValue(entries, Text(v))
  {
    var after := WithValue(entries, Text(v));
    KeysKept(entries, Text(v), "name");
    KeysKept(entries, Text(v), "value");
    OtherValue(entries, Text(v), "name");
    NewValue(entries, Text(v));
    hide WithValue, ValueAt, HasKey;
    assert WithValue(after, Text(v)) == after;
  }

  lemma KeysKept(entries: seq<Entry>, v: Json, key: string)
    requires HasKey(entries, key)
    ensures HasKey(WithValue(entries, v), key)
  {
    var i :| 0 <= i < |entries| && entries[i].key == key;
    assert WithValue(entries, v)[i].key == key;
  }

  lemma NewValue(entries: seq<Entry>, v: Json)
    requires HasKey(WithValue(entries, v), "value")
    ensures ValueAt(WithValue(entries, v), "value") == v
  {
    var after := WithValue(entries, v);
    hide WithValue;
    var k :| 0 <= k < |after| && after[k] == Entry("value", ValueAt(after, "value"));
  }

  lemma {:induction false} OtherValue(entries: seq<Entry>, v: Json, key: string)
    requires HasKey(entries, key) && key != "value" && HasKey(WithValue(entries, v), key)
    ensures ValueAt(WithValue(entries, v), key) == ValueAt(entries, key)
  {
    var after := WithValue(entries, v);
    if entries[0].key != key {
      assert after[1..] == WithValue(entries[1..], v);
      var i :| 0 <= i < |entries| && entries[i].key == key;
      assert entries[1..][i - 1].key == key && after[1..][i - 1].key == key;
      OtherValue(entries[1..], v, key);
    }
  }

  lemma ProjectedKind(p: Profile, j: Json)
    ensures Projected(p, j).Text? <==> j.Text?
  {
  }

  /** Keys are kept, so a plain object stays plain. */
  lemma EntriesRemain(p: Profile, entries: seq<Entry>)
    requires !IsField(entries)
    ensures !IsField(ProjectedEntries(p, entries))
  {
    var after := ProjectedEntries(p, entries);
    forall i | 0 <= i < |entries| ensures after[i].key == entries[i].key {}
  }

  lemma MarkerIsPlain(name: string)
    ensures !IsField([Entry("name", Text(name)), Entry(MARKER, Bool(true))])
  {
    assert |MARKER| != |"value"| && |"name"| != |"value"|;
  }

  // ---- a second pass -------------------------------------------------------------------

  /** No replacement and no pseudonym, so no rule feeds on its own output. */
  ghost predicate Stable(p: Profile) {
    forall r :: r in p.rules ==> r.OmitField? || r.MaskField?
  }

  ghost predicate NamesFit(p: Profile, j: Json) {
    match j
    case Array(x) => forall i :: 0 <= i < |x| ==> NamesFit(p, x[i])
    case Object(x) =>
      if IsField(x) then |FieldName(x)| <= p.posture.maxText
      else forall i :: 0 <= i < |x| ==> NamesFit(p, x[i].value)
    case _ => true
  }

  lemma {:induction false} NothingRewritten(rules: seq<Rule>, s: string)
    requires forall r :: r in rules ==> r.OmitField? || r.MaskField?
    ensures Rewritten(rules, s) == s
  {
    if rules != [] {
      assert rules[|rules|-1] in rules;
      NothingRewritten(rules[..|rules|-1], s);
    }
  }

  lemma {:induction false} NoPseudonym(rules: seq<Rule>, name: string)
    requires forall r :: r in rules ==> r.OmitField? || r.MaskField?
    ensures !FirstRule(rules, name).Tokened?
  {
    if rules != [] {
      assert rules[0] in rules;
      if !Targets(rules[0], name) { NoPseudonym(rules[1..], name); }
    }
  }

  /** The cut text is longer than the bound, and cutting it again gives the same text. */
  lemma TextTwice(p: Profile, s: string)
    requires Stable(p)
    ensures TextOf(p, TextOf(p, s)) == TextOf(p, s)
    ensures |s| <= p.posture.maxText ==> TextOf(p, s) == s
  {
    var max, once := p.posture.maxText, TextOf(p, s);
    NothingRewritten(p.rules, s);
    NothingRewritten(p.rules, once);
    if |s| > max { assert once[..max] == s[..max]; }
  }

  lemma FieldTwice(p: Profile, name: string, s: string)
    requires Stable(p)
    ensures FieldValue(p, name, s).Some? ==> FieldValue(p, name, FieldValue(p, name, s).value) == FieldValue(p, name, s)
    ensures FieldValue(p, name, s).None? <==> Decide(p, name).Dropped?
  {
    NoPseudonym(p.rules, name);
    TextTwice(p, s);
    hide TextOf;
  }

  lemma {:induction false} BasenameTwice(s: string)
    requires forall i :: 0 <= i < |s| ==> !Separator(s[i])
    ensures BasenameOf(s) == s
  {
    if s != [] { BasenameTwice(s[..|s|-1]); }
  }

  lemma KeyedTwice(p: Profile, key: string, s: string)
    requires Stable(p)
    ensures KeyedText(p, key, KeyedText(p, key, s)) == KeyedText(p, key, s)
  {
    FieldTwice(p, key, s);
    BasenameTwice(BasenameOf(s));
    hide TextOf;
  }

  /** Each display field the walk omits leaves a marker whose name a second pass would keep. */
  ghost predicate NamesStay(p: Profile, j: Json) {
    match j
    case Array(x) => forall i :: 0 <= i < |x| ==> NamesStay(p, x[i])
    case Object(x) =>
      if IsField(x) then Decide(p, FieldName(x)).Dropped? ==> KeyedText(p, "name", FieldName(x)) == FieldName(x)
      else forall i :: 0 <= i < |x| ==> NamesStay(p, x[i].value)
    case _ => true
  }

  /** With nothing but omissions and masks, projecting twice is projecting once if and only if
      every omitted display field has a name the profile would leave alone. */
  lemma {:induction false} SecondPassIsIdleIff(p: Profile, j: Json)
    requires Stable(p)
    ensures Projected(p, Projected(p, j)) == Projected(p, j) <==> NamesStay(p, j)
  {
    match j
    case Text(s) => TextTwice(p, s);
    case Array(items) =>
      ArrayWalk(p, items);
      ArrayWalk(p, ProjectedItems(p, items));
      hide Projected;
      forall i | 0 <= i < |items|
        ensures Projected(p, ProjectedItems(p, items)[i]) == Projected(p, items[i]) <==> NamesStay(p, items[i])
      {
        SecondPassIsIdleIff(p, items[i]);
      }
      var once, twice := ProjectedItems(p, items), ProjectedItems(p, ProjectedItems(p, items));
      assert twice == once <==> forall i :: 0 <= i < |items| ==> twice[i] == once[i];
    case Object(entries) =>
      if IsField(entries) {
        FieldEntryTwice(p, entries);
      } else {
        EntriesTwice(p, entries);
        hide Projected, ProjectedEntry, KeyedText;
        forall i | 0 <= i < |entries|
          ensures ProjectedEntry(p, ProjectedEntry(p, entries[i])) == ProjectedEntry(p, entries[i]) <==> NamesStay(p, entries[i].value)
        {
          var e := entries[i];
          EntryWalk(p, e);
          EntryWalk(p, ProjectedEntry(p, e));
          ProjectedKind(p, e.value);
          if e.value.Text? { KeyedTwice(p, e.key, e.value.s); } else { SecondPassIsIdleIff(p, e.value); }
        }
      }
    case _ =>
  }

  lemma EntriesTwice(p: Profile, entries: seq<Entry>)
    requires !IsField(entries)
    ensures Projected(p, Projected(p, Object(entries))) == Projected(p, Object(entries)) <==>
      forall i :: 0 <= i < |entries| ==> ProjectedEntry(p, ProjectedEntry(p, entries[i])) == ProjectedEntry(p, entries[i])
  {
    EntriesRemain(p, entries);
    ObjectWalk(p, entries);
    ObjectWalk(p, ProjectedEntries(p, entries));
    hide Projected, ProjectedEntry;
    var once, twice := ProjectedEntries(p, entries), ProjectedEntries(p, ProjectedEntries(p, entries));
    assert twice == once <==> forall i :: 0 <= i < |entries| ==> twice[i] == once[i];
  }

  lemma FieldEntryTwice(p: Profile, entries: seq<Entry>)
    requires Stable(p) && IsField(entries)
    ensures Projected(p, Projected(p, Object(entries))) == Projected(p, Object(entries)) <==> NamesStay(p, Object(entries))
  {
    var name, value := FieldName(entries), FieldText(p.render, entries);
    ObjectWalk(p, entries);
    FieldTwice(p, name, value);
    match FieldValue(p, name, value)
    case None =>
      MarkerProjected(p, name);
      hide Projected, KeyedText, FieldValue;
      assert Entry("name", Text(KeyedText(p, "name", name))).value.s == KeyedText(p, "name", name);
    case Some(shown) =>
      WithValueIsField(entries, shown);
      ObjectWalk(p, WithValue(entries, Text(shown)));
      hide Projected, FieldValue;
  }

  lemma {:induction false} FittingNamesStay(p: Profile, j: Json)
    requires Stable(p) && Decide(p, "name").Shown? && NamesFit(p, j)
    ensures NamesStay(p, j)
  {
    match j
    case Array(items) => forall i | 0 <= i < |items| ensures NamesStay(p, items[i]) { FittingNamesStay(p, items[i]); }
    case Object(entries) =>
      if IsField(entries) {
        TextTwice(p, FieldName(entries));
      } else {
        forall i | 0 <= i < |entries| ensures NamesStay(p, entries[i].value) { FittingNamesStay(p, entries[i].value); }
      }
    case _ =>
  }

  /** In particular when `name` itself is left alone and display names are inside the bound. */
  lemma SecondPassIsIdle(p: Profile, j: Json)
    requires Stable(p) && Decide(p, "name").Shown? && NamesFit(p, j)
    ensures Projected(p, Projected(p, j)) == Projected(p, j)
  {
    FittingNamesStay(p, j);
    SecondPassIsIdleIff(p, j);
    hide *;
  }

  /** The marker is a plain object: a second pass reads its name like any other string. */
  lemma MarkerProjected(p: Profile, name: string)
    ensures Projected(p, Object([Entry("name", Text(name)), Entry(MARKER, Bool(true))])) ==
      Object([Entry("name", Text(KeyedText(p, "name", name))), Entry(MARKER, Bool(true))])
  {
    var marker := [Entry("name", Text(name)), Entry(MARKER, Bool(true))];
    MarkerIsPlain(name);
    ObjectWalk(p, marker);
    TextEntry(p, "name", name);
    MarkerKept(p);
    hide *;
    assert ProjectedEntries(p, marker)[0] == ProjectedEntry(p, marker[0]);
    assert ProjectedEntries(p, marker) == [Entry("name", Text(KeyedText(p, "name", name))), Entry(MARKER, Bool(true))];
  }

  lemma MarkerKept(p: Profile)
    ensures ProjectedEntry(p, Entry(MARKER, Bool(true))) == Entry(MARKER, Bool(true))
  {
  }

  /** Targeting `name` breaks this: the marker left by the first pass is a plain object, whose
      name the second pass then hides. */
  lemma SecondPassCanHideName(render: Json -> string)
    ensures var p := Profile([], Posture(Omit, {}, {"user", "name"}, 100), render);
      var j := Object([Entry("name", Text("user")), Entry("value", Text("ann"))]);
      && Projected(p, j) == Object([Entry("name", Text("user")), Entry(MARKER, Bool(true))])
      && Projected(p, Projected(p, j)) == Object([Entry("name", Text(OMITTED)), Entry(MARKER, Bool(true))])
  {
    var p := Profile([], Posture(Omit, {}, {"user", "name"}, 100), render);
    var entries := [Entry("name", Text("user")), Entry("value", Text("ann"))];
    assert entries[0].key == "name" && entries[1].key == "value";
    ObjectWalk(p, entries);
    UserIsName(entries);
    MarkerProjected(p, "user");
    hide Projected, Positions, TextOf, IsField, FieldName, Effects, FieldCounts;
    assert FieldValue(p, "user", FieldText(render, entries)) == None;
    assert KeyedText(p, "name", "user") == OMITTED;
  }

  lemma UserIsName(entries: seq<Entry>)
    requires entries == [Entry("name", Text("user")), Entry("value", Text("ann"))]
    ensures IsField(entries) && FieldName(entries) == "user"
  {
    assert entries[0].key == "name" && entries[1].key == "value";
  }
}
