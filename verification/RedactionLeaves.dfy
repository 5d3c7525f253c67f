/** What the disclosure projection does to every string of a tree
    (crates/logscope-app/src/redact.rs). Strings are found by their path and told apart by where
    they stand, without reference to the walk. */
module RedactionLeaves {
  import opened Redaction
  import opened RedactionLaws
  import opened Rows
  import opened Sequences

  // ---- paths -------------------------------------------------------------------------

  datatype Step = Item(index: nat) | Member(key: string)

  type Route = seq<Step>

  function Child(j: Json, step: Step): Option<Json> {
    match step
    case Item(i) => if j.Array? && i < |j.items| then Some(j.items[i]) else None
    case Member(k) => if j.Object? && HasKey(j.entries, k) then Some(ValueAt(j.entries, k)) else None
  }

  function At(j: Json, path: Route): Option<Json>
    decreases |path|
  {
    if path == [] then Some(j)
    else match Child(j, path[0]) case None => None case Some(c) => At(c, path[1..])
  }

  /** The string at a path, if a string stands there. */
  function StringAt(j: Json, path: Route): Option<string> {
    match At(j, path) case Some(Text(s)) => Some(s) case _ => None
  }

  /** Where a path ends: at the root or in an array, under a key of a plain object, or somewhere
      in a `{name, value}` display field. */
  datatype Place = Loose | Keyed(key: string) | Display(name: string) | Label(name: string) | Beside(name: string) | Inside(name: string)

  function PlaceOf(j: Json, path: Route): Place
    decreases |path|
  {
    if path == [] then Loose
    else if j.Object? && IsField(j.entries) then
      var name := FieldName(j.entries);
      if path == [Member("value")] then Display(name)
      else if path[0] == Member("value") then Inside(name)
      else if path == [Member("name")] then Label(name)
      else Beside(name)
    else if |path| == 1 && path[0].Member? then Keyed(path[0].key)
    else match Child(j, path[0]) case None => Loose case Some(c) => PlaceOf(c, path[1..])
  }

  /** The text a display field is judged by. */
  function DisplayText(p: Profile, v: Option<Json>): string {
    match v case None => "" case Some(Text(s)) => s case Some(x) => p.render(x)
  }

  /** The string that stands at a path after one pass. */
  function Expected(p: Profile, j: Json, path: Route): Option<string> {
    var here := StringAt(j, path);
    match PlaceOf(j, path)
    case Loose => if here.Some? then Some(TextOf(p, here.value)) else None
    case Keyed(k) => if here.Some? then Some(KeyedText(p, k, here.value)) else None
    case Display(n) => FieldValue(p, n, DisplayText(p, At(j, path)))
    case Label(n) => if here.Some? then here else if Decide(p, n).Dropped? then Some("") else None
    case Beside(n) => if Decide(p, n).Dropped? then None else here
    case Inside(_) => None
  }

  // ---- the law -----------------------------------------------------------------------

  lemma {:induction false} PlainMember(p: Profile, entries: seq<Entry>, key: string)
    ensures HasKey(ProjectedEntries(p, entries), key) <==> HasKey(entries, key)
    ensures HasKey(entries, key) ==>
      ValueAt(ProjectedEntries(p, entries), key) == ProjectedEntry(p, Entry(key, ValueAt(entries, key))).value
  {
    var after := ProjectedEntries(p, entries);
    hide Projected;
    forall i | 0 <= i < |entries| ensures after[i].key == entries[i].key { KeyStays(p, entries[i]); }
    hide ProjectedEntry;
    if HasKey(entries, key) {
      var i :| 0 <= i < |entries| && entries[i].key == key;
      assert after[i].key == key;
      if entries[0].key != key {
        assert after[1..] == ProjectedEntries(p, entries[1..]);
        assert entries[1..][i - 1].key == key && after[1..][i - 1].key == key;
        PlainMember(p, entries[1..], key);
      } else {
        assert entries[0] == Entry(key, entries[0].value);
      }
    }
    if HasKey(after, key) {
      var i :| 0 <= i < |after| && after[i].key == key;
      assert entries[i].key == key;
    }
  }

  lemma KeyStays(p: Profile, e: Entry)
    ensures ProjectedEntry(p, e).key == e.key
  {
  }

  lemma AtStep(j: Json, path: Route)
    requires path != []
    ensures At(j, path) == match Child(j, path[0]) case None => None case Some(c) => At(c, path[1..])
  {
  }

  lemma NothingBelow(j: Json, path: Route)
    requires path != [] && !j.Array? && !j.Object?
    ensures At(j, path) == None
  {
  }

  /** Behind a step into anything but a display field or a keyed string, the rest of the path
      decides. */
  lemma ExpectedStep(p: Profile, j: Json, path: Route)
    requires path != [] && !(j.Object? && IsField(j.entries)) && !(|path| == 1 && path[0].Member?)
    ensures Expected(p, j, path) == match Child(j, path[0]) case None => None case Some(c) => Expected(p, c, path[1..])
  {
    hide IsField, FieldName, FieldValue, KeyedText, TextOf, Child, Decide;
  }

  /** For every profile, every tree and every path: the string standing there after one pass is
      the expected one, and no string stands where none is expected. */
  lemma {:induction false} LeafFate(p: Profile, j: Json, path: Route)
    ensures StringAt(Projected(p, j), path) == Expected(p, j, path)
    decreases |path|
  {
    if path == [] {
      ProjectedKind(p, j);
    } else if j.Array? {
      if path[0].Item? && path[0].index < |j.items| { LeafFate(p, j.items[path[0].index], path[1..]); }
      ArrayFate(p, j.items, path);
    } else if j.Object? && IsField(j.entries) {
      FieldFate(p, j.entries, path);
    } else if j.Object? {
      if path[0].Member? && HasKey(j.entries, path[0].key) { LeafFate(p, ValueAt(j.entries, path[0].key), path[1..]); }
      ObjectFate(p, j.entries, path);
    } else {
      BelowString(p, j, path);
    }
  }

  lemma BelowString(p: Profile, j: Json, path: Route)
    requires path != [] && !j.Array? && !j.Object?
    ensures StringAt(Projected(p, j), path) == None && Expected(p, j, path) == None
  {
    NothingBelow(j, path);
    assert !Projected(p, j).Array? && !Projected(p, j).Object?;
    NothingBelow(Projected(p, j), path);
    hide *;
    if |path| == 1 && path[0].Member? { KeyOfNothing(p, j, path); } else { ExpectedStep(p, j, path); NoChild(j, path[0]); }
  }

  lemma NoChild(j: Json, step: Step)
    requires !j.Array? && !j.Object?
    ensures Child(j, step) == None
  {
  }

  lemma KeyOfNothing(p: Profile, j: Json, path: Route)
    requires |path| == 1 && path[0].Member? && !(j.Object? && IsField(j.entries)) && StringAt(j, path) == None
    ensures Expected(p, j, path) == None
  {
    hide StringAt, IsField;
  }

  lemma ArrayFate(p: Profile, items: seq<Json>, path: Route)
    requires path != []
    requires path[0].Item? && path[0].index < |items| ==>
      StringAt(Projected(p, items[path[0].index]), path[1..]) == Expected(p, items[path[0].index], path[1..])
    ensures StringAt(Projected(p, Array(items)), path) == Expected(p, Array(items), path)
  {
    ArrayWalk(p, items);
    AtStep(Array(items), path);
    AtStep(Array(ProjectedItems(p, items)), path);
    if |path| == 1 && path[0].Member? {
      KeyOfNothing(p, Array(items), path);
    } else {
      ExpectedStep(p, Array(items), path);
    }
    hide Projected, Expected, At;
  }

  /** One step into a plain object. */
  lemma ObjectFate(p: Profile, entries: seq<Entry>, path: Route)
    requires !IsField(entries) && path != []
    requires path[0].Member? && HasKey(entries, path[0].key) ==>
      StringAt(Projected(p, ValueAt(entries, path[0].key)), path[1..]) == Expected(p, ValueAt(entries, path[0].key), path[1..])
    ensures StringAt(Projected(p, Object(entries)), path) == Expected(p, Object(entries), path)
  {
    ObjectWalk(p, entries);
    AtStep(Object(entries), path);
    AtStep(Object(ProjectedEntries(p, entries)), path);
    if !(path[0].Member? && HasKey(entries, path[0].key)) {
      if path[0].Member? { PlainMember(p, entries, path[0].key); }
      hide Projected;
      if |path| == 1 && path[0].Member? { KeyOfNothing(p, Object(entries), path); } else { ExpectedStep(p, Object(entries), path); }
    } else {
      var k, v := path[0].key, ValueAt(entries, path[0].key);
      PlainMember(p, entries, k);
      if |path| == 1 {
        KeyedFate(p, k, v);
        hide Projected, ProjectedEntry, KeyedText, TextOf, FieldValue;
      } else {
        ExpectedStep(p, Object(entries), path);
        BehindKey(p, k, v, path[1..]);
        hide Projected, ProjectedEntry, Expected;
      }
    }
  }

  lemma KeyedFate(p: Profile, k: string, v: Json)
    ensures ProjectedEntry(p, Entry(k, v)).value.Text? <==> v.Text?
    ensures v.Text? ==> ProjectedEntry(p, Entry(k, v)).value == Text(KeyedText(p, k, v.s))
  {
    ProjectedKind(p, v);
    hide KeyedText;
  }

  lemma BehindKey(p: Profile, k: string, v: Json, rest: Route)
    requires rest != []
    requires StringAt(Projected(p, v), rest) == Expected(p, v, rest)
    ensures StringAt(ProjectedEntry(p, Entry(k, v)).value, rest) == Expected(p, v, rest)
  {
    EntryWalk(p, Entry(k, v));
    if v.Text? {
      KeyedFate(p, k, v);
      NothingBelow(ProjectedEntry(p, Entry(k, v)).value, rest);
      BelowString(p, v, rest);
    }
    hide Projected, ProjectedEntry, Expected;
  }

  /** Into a display field. */
  lemma FieldFate(p: Profile, entries: seq<Entry>, path: Route)
    requires IsField(entries) && path != []
    ensures StringAt(Projected(p, Object(entries)), path) == Expected(p, Object(entries), path)
  {
    ObjectWalk(p, entries);
    FieldDropped(p, FieldName(entries), FieldText(p.render, entries));
    AtStep(Object(entries), path);
    if FieldValue(p, FieldName(entries), FieldText(p.render, entries)).None? {
      MarkerFate(FieldName(entries), path);
      DroppedFate(p, entries, path);
    } else {
      ShownFate(p, entries, path, FieldValue(p, FieldName(entries), FieldText(p.render, entries)).value);
    }
    hide *;
  }

  lemma DroppedFate(p: Profile, entries: seq<Entry>, path: Route)
    requires IsField(entries) && path != []
    requires FieldValue(p, FieldName(entries), FieldText(p.render, entries)).None? && Decide(p, FieldName(entries)).Dropped?
    ensures Expected(p, Object(entries), path) == if path == [Member("name")] then Some(FieldName(entries)) else None
  {
    AtStep(Object(entries), path);
    if path == [Member("name")] {
      assert At(Object(entries), path) == Some(ValueAt(entries, "name"));
      assert Member("name") != Member("value") by { assert |"name"| != |"value"|; }
      assert path[0] != Member("value");
    } else if path == [Member("value")] {
      assert At(Object(entries), path) == Some(ValueAt(entries, "value"));
    }
    hide FieldValue, Decide, TextOf, KeyedText;
  }

  lemma ShownFate(p: Profile, entries: seq<Entry>, path: Route, shown: string)
    requires IsField(entries) && path != []
    requires FieldValue(p, FieldName(entries), FieldText(p.render, entries)) == Some(shown) && !Decide(p, FieldName(entries)).Dropped?
    ensures StringAt(Object(WithValue(entries, Text(shown))), path) == Expected(p, Object(entries), path)
  {
    AtStep(Object(entries), path);
    AtStep(Object(WithValue(entries, Text(shown))), path);
    if path[0].Member? { WithValueMember(entries, shown, path[0].key); }
    if path[0] == Member("value") {
      BelowText(shown, path[1..]);
      ShownValue(p, entries, path);
    } else {
      ShownElsewhere(p, entries, path);
    }
    hide FieldValue, Expected, WithValue, ValueAt, HasKey, IsField, FieldName, FieldText, PlaceOf, Decide;
  }

  lemma BelowText(shown: string, rest: Route)
    ensures StringAt(Text(shown), rest) == if rest == [] then Some(shown) else None
  {
    if rest != [] { NothingBelow(Text(shown), rest); }
  }

  lemma ShownValue(p: Profile, entries: seq<Entry>, path: Route)
    requires IsField(entries) && path != [] && path[0] == Member("value")
    ensures Expected(p, Object(entries), path) ==
      if |path| == 1 then FieldValue(p, FieldName(entries), FieldText(p.render, entries)) else None
  {
    if |path| == 1 {
      assert path == [Member("value")];
      assert At(Object(entries), path) == Some(ValueAt(entries, "value"));
    } else {
      assert path != [Member("value")];
    }
    hide FieldValue, Decide, TextOf, KeyedText;
  }

  lemma ShownElsewhere(p: Profile, entries: seq<Entry>, path: Route)
    requires IsField(entries) && path != [] && path[0] != Member("value") && !Decide(p, FieldName(entries)).Dropped?
    ensures Expected(p, Object(entries), path) == StringAt(Object(entries), path)
  {
    hide FieldValue, Decide, TextOf, KeyedText, At;
  }

  lemma FieldDropped(p: Profile, name: string, value: string)
    ensures FieldValue(p, name, value).None? <==> Decide(p, name).Dropped?
  {
  }

  /** The marker of an omitted display field carries its name and nothing else. */
  lemma MarkerFate(name: string, path: Route)
    requires path != []
    ensures StringAt(Object([Entry("name", Text(name)), Entry(MARKER, Bool(true))]), path) ==
      if path == [Member("name")] then Some(name) else None
  {
    var marker := [Entry("name", Text(name)), Entry(MARKER, Bool(true))];
    AtStep(Object(marker), path);
    if path[0].Member? {
      MarkerMember(name, path[0].key);
      if |path| > 1 {
        NothingBelow(Text(name), path[1..]);
        NothingBelow(Bool(true), path[1..]);
      }
      hide At, HasKey, ValueAt;
      assert path == [Member("name")] <==> |path| == 1 && path[0].key == "name";
    }
  }

  lemma MarkerMember(name: string, key: string)
    ensures var marker := [Entry("name", Text(name)), Entry(MARKER, Bool(true))];
      && (HasKey(marker, key) <==> key == "name" || key == MARKER)
      && (HasKey(marker, key) ==> ValueAt(marker, key) == if key == "name" then Text(name) else Bool(true))
  {
    var marker := [Entry("name", Text(name)), Entry(MARKER, Bool(true))];
    assert marker[0].key == "name" && marker[1].key == MARKER;
    assert MARKER != "name" by { assert |MARKER| != |"name"|; }
    assert marker[1..][0] == marker[1];
    assert key == "name" ==> HasKey(marker, key);
    assert key == MARKER ==> HasKey(marker, key);
  }

  lemma WithValueMember(entries: seq<Entry>, shown: string, key: string)
    requires IsField(entries)
    ensures var after := WithValue(entries, Text(shown));
      && (HasKey(after, key) <==> HasKey(entries, key))
      && (HasKey(entries, key) ==> ValueAt(after, key) == if key == "value" then Text(shown) else ValueAt(entries, key))
  {
    var after := WithValue(entries, Text(shown));
    if HasKey(entries, key) {
      KeysKept(entries, Text(shown), key);
      if key == "value" { NewValue(entries, Text(shown)); } else { OtherValue(entries, Text(shown), key); }
    }
    if HasKey(after, key) {
      var i :| 0 <= i < |after| && after[i].key == key;
      assert entries[i].key == key;
    }
  }

  // ---- sealed or verbatim ----------------------------------------------------------------

  /** Text that left the profile's bound. */
  predicate Fits(p: Profile, s: string) { |s| <= p.posture.maxText + |CUT| }

  ghost predicate SealedField(p: Profile, name: string, s: string) {
    match Decide(p, name)
    case Dropped => s == OMITTED
    case Masked => s == MASK
    case Tokened(token) => exists v :: s == token(v)
    case Shown => Fits(p, s)
  }

  ghost predicate SealedKey(p: Profile, key: string, s: string) {
    if IsPathKey(key) && !p.posture.pathPolicy.Include? then
      if p.posture.pathPolicy.Omit? then s == NO_PATH else forall i :: 0 <= i < |s| ==> !Separator(s[i])
    else SealedField(p, key, s)
  }

  /** Sealed by the profile, or out of its reach: as the name of a display field, or beside one.
      There it is the input's own string. */
  ghost predicate Kept(p: Profile, j: Json, path: Route, s: string) {
    match PlaceOf(j, path)
    case Loose => Fits(p, s)
    case Keyed(k) => SealedKey(p, k, s)
    case Display(n) => SealedField(p, n, s)
    case Label(n) => StringAt(j, path) == Some(s) || (Decide(p, n).Dropped? && s == "")
    case Beside(n) => StringAt(j, path) == Some(s) && !Decide(p, n).Dropped?
    case Inside(_) => false
  }

  lemma FieldSealed(p: Profile, name: string, v: string)
    ensures SealedField(p, name, FieldValue(p, name, v).GetOr(OMITTED))
    ensures FieldValue(p, name, v).None? <==> Decide(p, name).Dropped?
  {
    hide Rewritten;
  }

  lemma KeySealed(p: Profile, key: string, s: string)
    ensures SealedKey(p, key, KeyedText(p, key, s))
  {
    FieldSealed(p, key, s);
    hide FieldValue, SealedField, Decide;
  }

  /** Every string of the output is sealed by the profile or stands where the profile does not
      reach. */
  lemma SealedOrVerbatim(p: Profile, j: Json, path: Route)
    requires StringAt(Projected(p, j), path).Some?
    ensures Kept(p, j, path, StringAt(Projected(p, j), path).value)
  {
    LeafFate(p, j, path);
    var here, place := StringAt(j, path), PlaceOf(j, path);
    if place.Keyed? && here.Some? { KeySealed(p, place.key, here.value); }
    if place.Display? { FieldSealed(p, place.name, DisplayText(p, At(j, path))); }
    hide Projected, PlaceOf, At, Rewritten, SealedField, SealedKey, FieldValue, KeyedText, Decide, StringAt, DisplayText;
  }

  /** A string beside a display field survives verbatim, whatever the profile says of its key,
      exactly when the display field itself is not omitted. */
  lemma BesideSurvivesIff(p: Profile, j: Json, path: Route)
    requires PlaceOf(j, path).Beside? && StringAt(j, path).Some?
    ensures StringAt(Projected(p, j), path) == StringAt(j, path) <==> !Decide(p, PlaceOf(j, path).name).Dropped?
  {
    LeafFate(p, j, path);
    hide Projected, PlaceOf, At, Decide, StringAt;
  }

  /** The fixed token takes the place of a dropped key's value if and only if the value is a
      string and the key belongs to a plain object, not to a display field or its neighbours. A
      path key under a closing path policy gets the policy's text instead. */
  lemma DroppedKeyHidesIff(p: Profile, j: Json, above: Route, key: string)
    requires Decide(p, key).Dropped? && At(j, above + [Member(key)]).Some?
    requires StringAt(j, above + [Member(key)]) != Some(OMITTED) && !PlaceOf(j, above + [Member(key)]).Display?
    ensures var path := above + [Member(key)];
      var hidden := PlaceOf(j, path).Keyed? && StringAt(j, path).Some?;
      var out := StringAt(Projected(p, j), path);
      if IsPathKey(key) && !p.posture.pathPolicy.Include? then
        hidden ==> out == Some(if p.posture.pathPolicy.Omit? then NO_PATH else BasenameOf(StringAt(j, path).value))
      else
        out == Some(OMITTED) <==> hidden
  {
    var path := above + [Member(key)];
    LeafFate(p, j, path);
    LastKey(j, above, key);
    assert OMITTED != "" by { assert |OMITTED| > 0; }
    hide Projected, At, TextOf, PlaceOf, StringAt, Decide, IsPathKey, BasenameOf;
  }

  lemma {:induction false} LastKey(j: Json, above: Route, key: string)
    requires At(j, above + [Member(key)]).Some?
    ensures var place := PlaceOf(j, above + [Member(key)]);
      && !place.Loose? && (place.Keyed? ==> place.key == key)
    decreases |above|
  {
    var path := above + [Member(key)];
    if above != [] && !(j.Object? && IsField(j.entries)) {
      assert path[1..] == above[1..] + [Member(key)];
      LastKey(Child(j, path[0]).value, above[1..], key);
    }
  }

  const NEIGHBOURS := [Entry("name", Text("n")), Entry("value", Text("v")), Entry("user", Text("ann-the-secret"))]

  /** A denied string, longer than the bound, survives beside a display field. */
  lemma DeniedStringSurvives(render: Json -> string)
    ensures var p := Profile([], Posture(Omit, {}, {"user"}, 3), render);
      && Decide(p, "user").Dropped?
      && Projected(p, Object(NEIGHBOURS)) == Object(NEIGHBOURS)
      && StringAt(Projected(p, Object(NEIGHBOURS)), [Member("user")]) == Some("ann-the-secret")
      && Positions(render, Projected(p, Object(NEIGHBOURS))) == [Named("n", "v")]
  {
    var p := Profile([], Posture(Omit, {}, {"user"}, 3), render);
    Unchanged(p);
    NeighbourRead(render);
    hide Projected, StringAt, Positions;
  }

  lemma Unchanged(p: Profile)
    requires p.rules == [] && p.posture == Posture(Omit, {}, {"user"}, 3)
    ensures Projected(p, Object(NEIGHBOURS)) == Object(NEIGHBOURS)
  {
    ObjectWalk(p, NEIGHBOURS);
    Neighbours(p.render);
    ShortTextShown(p);
    hide *;
  }

  lemma NeighbourRead(render: Json -> string)
    ensures StringAt(Object(NEIGHBOURS), [Member("user")]) == Some("ann-the-secret")
    ensures Positions(render, Object(NEIGHBOURS)) == [Named("n", "v")]
  {
    Neighbours(render);
    var paths := [Member("user")];
    assert paths[1..] == [];
    AtStep(Object(NEIGHBOURS), paths);
    hide HasKey, ValueAt, FieldName, FieldText, IsField;
  }

  lemma Neighbours(render: Json -> string)
    ensures IsField(NEIGHBOURS) && FieldName(NEIGHBOURS) == "n" && FieldText(render, NEIGHBOURS) == "v"
    ensures WithValue(NEIGHBOURS, Text("v")) == NEIGHBOURS
    ensures HasKey(NEIGHBOURS, "user") && ValueAt(NEIGHBOURS, "user") == Text("ann-the-secret")
  {
    DistinctNames();
    assert NEIGHBOURS[0].key == "name" && NEIGHBOURS[1].key == "value" && NEIGHBOURS[2].key == "user";
    assert NEIGHBOURS[1..][0] == NEIGHBOURS[1] && NEIGHBOURS[1..][1] == NEIGHBOURS[2] && NEIGHBOURS[1..][1..][0] == NEIGHBOURS[2];
  }

  lemma ShortTextShown(p: Profile)
    requires p.rules == [] && p.posture == Posture(Omit, {}, {"user"}, 3)
    ensures FieldValue(p, "n", "v") == Some("v")
  {
    assert "n" != "user" by { assert |"n"| != |"user"|; }
    assert Rewritten(p.rules, "v") == "v";
  }

  lemma DistinctNames()
    ensures "name" != "value" && "name" != "user" && "value" != "user"
  {
    assert "name"[0] != "user"[0] && |"value"| != |"user"| && |"name"| != |"value"|;
  }

  /** A denied number stays where it is. */
  lemma DeniedNumberSurvives(render: Json -> string)
    ensures var p := Profile([], Posture(Omit, {}, {"user"}, 3), render);
      var j := Object([Entry("user", Number("7"))]);
      Decide(p, "user").Dropped? && Projected(p, j) == j
  {
    var p := Profile([], Posture(Omit, {}, {"user"}, 3), render);
    var entries := [Entry("user", Number("7"))];
    DistinctNames();
    ObjectWalk(p, entries);
    assert ProjectedEntry(p, entries[0]) == entries[0];
    hide Projected, ProjectedEntry;
    assert forall e :: e in entries ==> e.key == "user";
    assert ProjectedEntries(p, entries) == entries;
  }

  // ---- what the counters count -------------------------------------------------------------

  function Under(step: Step, paths: seq<Route>): seq<Route> { Apply((r: Route) => [step] + r, paths) }

  /** Every path of a tree, strings or not. */
  function Paths(j: Json): seq<Route>
    decreases j, 1
  {
    [[]] + Inner(j)
  }

  function Inner(j: Json): seq<Route>
    decreases j, 0
  {
    match j
    case Array(items) => Flatten(seq(|items|, i requires 0 <= i < |items| => Under(Item(i), Paths(items[i]))))
    case Object(entries) =>
      Flatten(seq(|entries|, i requires 0 <= i < |entries| => Under(Member(entries[i].key), Paths(entries[i].value))))
    case _ => []
  }

  function ItemPaths(items: seq<Json>): (r: seq<seq<Route>>)
    ensures |r| == |items| && forall i :: 0 <= i < |items| ==> r[i] == Under(Item(i), Paths(items[i]))
  {
    seq(|items|, i requires 0 <= i < |items| => Under(Item(i), Paths(items[i])))
  }

  function MemberPaths(entries: seq<Entry>): (r: seq<seq<Route>>)
    ensures |r| == |entries| && forall i :: 0 <= i < |entries| ==> r[i] == Under(Member(entries[i].key), Paths(entries[i].value))
  {
    seq(|entries|, i requires 0 <= i < |entries| => Under(Member(entries[i].key), Paths(entries[i].value)))
  }

  lemma InnerParts(j: Json)
    ensures j.Array? ==> Inner(j) == Flatten(ItemPaths(j.items))
    ensures j.Object? ==> Inner(j) == Flatten(MemberPaths(j.entries))
  {
    hide Flatten, Paths, Under;
    match j
    case Array(items) =>
      var s := seq(|items|, i requires 0 <= i < |items| => Under(Item(i), Paths(items[i])));
      assert Inner(j) == Flatten(s);
      assert s == ItemPaths(items);
    case Object(entries) =>
      var s := seq(|entries|, i requires 0 <= i < |entries| => Under(Member(entries[i].key), Paths(entries[i].value)));
      assert Inner(j) == Flatten(s);
      assert s == MemberPaths(entries);
    case _ =>
  }

  lemma InnerIsDeep(j: Json, r: Route)
    requires r in Inner(j)
    ensures r != []
  {
    InnerParts(j);
    hide Inner, Flatten;
    if j.Array? {
      FlattenMember(ItemPaths(j.items), r);
    } else if j.Object? {
      FlattenMember(MemberPaths(j.entries), r);
    } else {
      NoInner(j);
    }
  }

  lemma NoInner(j: Json)
    requires !j.Array? && !j.Object?
    ensures Inner(j) == []
  {
  }

  /** What the counters see at a path: a string in the open or under a key of a plain object, and
      the value of a display field whatever its kind. Strings anywhere else are not counted. */
  function Counted(render: Json -> string, j: Json, path: Route): seq<Position> {
    var here := StringAt(j, path);
    match PlaceOf(j, path)
    case Loose => if here.Some? then [Free(here.value)] else []
    case Keyed(k) => if here.None? then [] else [if IsPathKey(k) then Path(k, here.value) else Named(k, here.value)]
    case Display(n) => [Named(n, match At(j, path) case None => "" case Some(Text(s)) => s case Some(x) => render(x))]
    case _ => []
  }

  function CountedAll(render: Json -> string, j: Json, paths: seq<Route>): seq<Position> {
    if paths == [] then [] else CountedAll(render, j, paths[..|paths|-1]) + Counted(render, j, paths[|paths|-1])
  }

  predicate DistinctKeys(entries: seq<Entry>) {
    forall i, k :: 0 <= i < k < |entries| ==> entries[i].key != entries[k].key
  }

  /** The keys of every object are distinct. */
  predicate UniqueKeys(j: Json) {
    match j
    case Array(items) => forall i :: 0 <= i < |items| ==> UniqueKeys(items[i])
    case Object(entries) => DistinctKeys(entries) && forall i :: 0 <= i < |entries| ==> UniqueKeys(entries[i].value)
    case _ => true
  }

  lemma CountedSnoc(render: Json -> string, j: Json, paths: seq<Route>, r: Route)
    ensures CountedAll(render, j, paths + [r]) == CountedAll(render, j, paths) + Counted(render, j, r)
  {
    assert (paths + [r])[..|paths|] == paths;
    hide Counted;
  }

  lemma {:induction false} CountedConcat(render: Json -> string, j: Json, a: seq<Route>, b: seq<Route>)
    ensures CountedAll(render, j, a + b) == CountedAll(render, j, a) + CountedAll(render, j, b)
  {
    if b == [] {
      assert a + b == a;
    } else {
      CountedConcat(render, j, a, b[..|b|-1]);
      CountedMore(render, j, a, b[..|b|-1], b[|b|-1]);
      SplitLast([], b);
      hide *;
    }
  }

  lemma CountedMore(render: Json -> string, j: Json, a: seq<Route>, b: seq<Route>, r: Route)
    requires CountedAll(render, j, a + b) == CountedAll(render, j, a) + CountedAll(render, j, b)
    ensures CountedAll(render, j, a + (b + [r])) == CountedAll(render, j, a) + CountedAll(render, j, b + [r])
  {
    CountedSnoc(render, j, a + b, r);
    CountedSnoc(render, j, b, r);
    hide *;
    assert a + (b + [r]) == (a + b) + [r];
  }

  /** Paths below one child are counted as the child alone counts them. */
  lemma {:induction false} CountedUnder(render: Json -> string, j: Json, step: Step, child: Json, paths: seq<Route>)
    requires forall r :: r in paths ==> Counted(render, j, [step] + r) == Counted(render, child, r)
    ensures CountedAll(render, j, Under(step, paths)) == CountedAll(render, child, paths)
  {
    if paths != [] {
      var front, x := paths[..|paths|-1], paths[|paths|-1];
      assert paths == front + [x] && x in paths;
      CountedUnder(render, j, step, child, front);
      UnderSnoc(step, front, x);
      CountedSnoc(render, j, Under(step, front), [step] + x);
      CountedSnoc(render, child, front, x);
      hide *;
    }
  }

  lemma UnderSnoc(step: Step, paths: seq<Route>, x: Route)
    ensures Under(step, paths + [x]) == Under(step, paths) + [[step] + x]
  {
    ApplySnoc((r: Route) => [step] + r, paths, x);
  }

  lemma {:induction false} CountedFlat(render: Json -> string, j: Json, parts: seq<seq<Route>>, marks: seq<seq<Position>>)
    requires |parts| == |marks| && forall i :: 0 <= i < |parts| ==> CountedAll(render, j, parts[i]) == marks[i]
    ensures CountedAll(render, j, Flatten(parts)) == Flatten(marks)
  {
    if parts != [] {
      var n := |parts| - 1;
      CountedFlat(render, j, parts[..n], marks[..n]);
      CountedConcat(render, j, Flatten(parts[..n]), parts[n]);
      hide CountedAll;
    }
  }

  lemma CountedHead(render: Json -> string, j: Json, paths: seq<Route>)
    ensures CountedAll(render, j, [[]] + paths) == Counted(render, j, []) + CountedAll(render, j, paths)
  {
    CountedConcat(render, j, [[]], paths);
    var one: seq<Route> := [[]];
    assert one[..0] == [];
    hide Counted;
  }

  lemma Deeper(j: Json, step: Step, r: Route)
    ensures At(j, [step] + r) == match Child(j, step) case None => None case Some(c) => At(c, r)
    ensures !(j.Object? && IsField(j.entries)) && !(r == [] && step.Member?) ==>
      PlaceOf(j, [step] + r) == match Child(j, step) case None => Loose case Some(c) => PlaceOf(c, r)
  {
    assert ([step] + r)[1..] == r && ([step] + r)[0] == step;
    hide Child, IsField;
  }

  lemma {:induction false} CountedNone(render: Json -> string, j: Json, paths: seq<Route>)
    requires forall r :: r in paths ==> Counted(render, j, r) == []
    ensures CountedAll(render, j, paths) == []
  {
    if paths != [] {
      assert paths[|paths|-1] in paths;
      CountedNone(render, j, paths[..|paths|-1]);
      hide Counted;
    }
  }

  lemma CountedChild(render: Json -> string, j: Json, step: Step, child: Json, r: Route)
    requires !(j.Object? && IsField(j.entries)) && Child(j, step) == Some(child)
    requires r == [] && step.Member? ==> !child.Text?
    ensures Counted(render, j, [step] + r) == Counted(render, child, r)
  {
    Deeper(j, step, r);
    hide Child, IsField, FieldName;
  }

  lemma ItemCounted(render: Json -> string, items: seq<Json>, i: nat)
    requires i < |items|
    ensures CountedAll(render, Array(items), Under(Item(i), Paths(items[i]))) == CountedAll(render, items[i], Paths(items[i]))
  {
    var j := Array(items);
    forall r | r in Paths(items[i]) ensures Counted(render, j, [Item(i)] + r) == Counted(render, items[i], r) {
      CountedChild(render, j, Item(i), items[i], r);
    }
    CountedUnder(render, j, Item(i), items[i], Paths(items[i]));
  }

  lemma {:induction false} OwnValue(entries: seq<Entry>, i: nat)
    requires i < |entries| && DistinctKeys(entries)
    ensures HasKey(entries, entries[i].key) && ValueAt(entries, entries[i].key) == entries[i].value
  {
    if i > 0 {
      assert entries[1..][i - 1] == entries[i];
      OwnValue(entries[1..], i - 1);
    }
  }

  lemma TextCounted(render: Json -> string, j: Json, key: string, s: string)
    requires !(j.Object? && IsField(j.entries)) && Child(j, Member(key)) == Some(Text(s))
    ensures CountedAll(render, j, Under(Member(key), Paths(Text(s)))) == EntryPositions(render, Entry(key, Text(s)))
  {
    Deeper(j, Member(key), []);
    assert Paths(Text(s)) == [[]];
    assert [Member(key)] + [] == [Member(key)];
    assert Under(Member(key), Paths(Text(s))) == [] + [[Member(key)]];
    CountedSnoc(render, j, [], [Member(key)]);
    hide Child, IsField, FieldName, IsPathKey, Positions, Under;
  }

  lemma EntryCounted(render: Json -> string, entries: seq<Entry>, i: nat)
    requires i < |entries| && DistinctKeys(entries) && !IsField(entries)
    requires Positions(render, entries[i].value) == CountedAll(render, entries[i].value, Paths(entries[i].value))
    ensures CountedAll(render, Object(entries), Under(Member(entries[i].key), Paths(entries[i].value))) ==
      EntryPositions(render, entries[i])
  {
    var j, e := Object(entries), entries[i];
    OwnValue(entries, i);
    assert Child(j, Member(e.key)) == Some(e.value);
    if e.value.Text? {
      TextCounted(render, j, e.key, e.value.s);
      hide *;
    } else {
      forall r | r in Paths(e.value) ensures Counted(render, j, [Member(e.key)] + r) == Counted(render, e.value, r) {
        CountedChild(render, j, Member(e.key), e.value, r);
      }
      CountedUnder(render, j, Member(e.key), e.value, Paths(e.value));
      hide Counted, CountedAll, Paths, Under, IsField, Child;
    }
  }

  /** Below a display field only its value counts. */
  lemma FieldPath(render: Json -> string, entries: seq<Entry>, path: Route)
    requires IsField(entries) && path != []
    ensures Counted(render, Object(entries), path) ==
      if path == [Member("value")] then [Named(FieldName(entries), FieldText(render, entries))] else []
  {
    AtStep(Object(entries), path);
    if path == [Member("value")] { assert At(Object(entries), path) == Some(ValueAt(entries, "value")); }
    hide StringAt, At, HasKey, FieldName;
  }

  lemma FieldPartCounted(render: Json -> string, entries: seq<Entry>, i: nat)
    requires i < |entries| && IsField(entries)
    ensures CountedAll(render, Object(entries), Under(Member(entries[i].key), Paths(entries[i].value))) ==
      if entries[i].key == "value" then [Named(FieldName(entries), FieldText(render, entries))] else []
  {
    var j, step, inner := Object(entries), Member(entries[i].key), Inner(entries[i].value);
    UnderHead(step, inner);
    InnerUncounted(render, entries, i);
    FieldPath(render, entries, [step]);
    CountedConcat(render, j, [[step]], Under(step, inner));
    OneCounted(render, j, [step]);
    hide Counted, CountedAll, Under, Inner, IsField, FieldName, FieldText;
    assert [step] == [Member("value")] <==> entries[i].key == "value";
  }

  lemma InnerUncounted(render: Json -> string, entries: seq<Entry>, i: nat)
    requires i < |entries| && IsField(entries)
    ensures CountedAll(render, Object(entries), Under(Member(entries[i].key), Inner(entries[i].value))) == []
  {
    var j, step, inner := Object(entries), Member(entries[i].key), Inner(entries[i].value);
    hide Inner, IsField, Counted;
    forall r | r in Under(step, inner) ensures Counted(render, j, r) == [] {
      var k :| 0 <= k < |inner| && r == [step] + inner[k];
      InnerIsDeep(entries[i].value, inner[k]);
      FieldPath(render, entries, r);
    }
    CountedNone(render, j, Under(step, inner));
  }

  lemma OneCounted(render: Json -> string, j: Json, r: Route)
    ensures CountedAll(render, j, [r]) == Counted(render, j, r)
  {
    CountedSnoc(render, j, [], r);
    assert [] + [r] == [r];
    hide Counted;
  }

  lemma UnderHead(step: Step, inner: seq<Route>)
    ensures Under(step, [[]] + inner) == [[step]] + Under(step, inner)
  {
    assert [step] + [] == [step];
  }

  /** The walk meets exactly the counted paths of the tree, in order. */
  lemma {:induction false} CountedAreMet(render: Json -> string, j: Json)
    requires UniqueKeys(j)
    ensures Positions(render, j) == CountedAll(render, j, Paths(j))
    decreases j, 1
  {
    match j
    case Array(items) =>
      forall i | 0 <= i < |items| ensures Positions(render, items[i]) == CountedAll(render, items[i], Paths(items[i])) {
        CountedAreMet(render, items[i]);
      }
      ItemsMet(render, items);
    case Object(entries) =>
      if IsField(entries) {
        FieldMet(render, entries);
      } else {
        forall i | 0 <= i < |entries|
          ensures Positions(render, entries[i].value) == CountedAll(render, entries[i].value, Paths(entries[i].value))
        {
          CountedAreMet(render, entries[i].value);
        }
        EntriesMet(render, entries);
      }
    case _ =>
      CountedHead(render, j, []);
      assert [[]] + Inner(j) == [[]];
  }

  lemma ItemsMet(render: Json -> string, items: seq<Json>)
    requires forall i :: 0 <= i < |items| ==> Positions(render, items[i]) == CountedAll(render, items[i], Paths(items[i]))
    ensures Positions(render, Array(items)) == CountedAll(render, Array(items), Paths(Array(items)))
  {
    var j := Array(items);
    var p := Profile([], Posture(Omit, {}, {}, 0), render);
    ArrayWalk(p, items);
    InnerParts(j);
    CountedHead(render, j, Inner(j));
    hide Inner, Paths, CountedAll, Positions;
    forall i | 0 <= i < |items| ensures CountedAll(render, j, ItemPaths(items)[i]) == ItemParts(render, items)[i] {
      ItemCounted(render, items, i);
    }
    CountedFlat(render, j, ItemPaths(items), ItemParts(render, items));
  }

  lemma EntriesMet(render: Json -> string, entries: seq<Entry>)
    requires DistinctKeys(entries) && !IsField(entries)
    requires forall i :: 0 <= i < |entries| ==>
      Positions(render, entries[i].value) == CountedAll(render, entries[i].value, Paths(entries[i].value))
    ensures Positions(render, Object(entries)) == CountedAll(render, Object(entries), Paths(Object(entries)))
  {
    var j := Object(entries);
    var p := Profile([], Posture(Omit, {}, {}, 0), render);
    ObjectWalk(p, entries);
    InnerParts(j);
    CountedHead(render, j, Inner(j));
    hide Inner, Paths, CountedAll, Positions, EntryPositions, IsField, DistinctKeys;
    forall i | 0 <= i < |entries| ensures CountedAll(render, j, MemberPaths(entries)[i]) == EntryParts(render, entries)[i] {
      EntryCounted(render, entries, i);
    }
    CountedFlat(render, j, MemberPaths(entries), EntryParts(render, entries));
  }

  function FieldMarks(entries: seq<Entry>, met: seq<Position>): (r: seq<seq<Position>>)
    ensures |r| == |entries| && forall i :: 0 <= i < |entries| ==> r[i] == if entries[i].key == "value" then met else []
  {
    seq(|entries|, i requires 0 <= i < |entries| => if entries[i].key == "value" then met else [])
  }

  lemma OneValue(entries: seq<Entry>, met: seq<Position>)
    requires DistinctKeys(entries) && IsField(entries)
    ensures Flatten(FieldMarks(entries, met)) == met
  {
    var k: nat :| k < |entries| && entries[k].key == "value";
    OnlyHere(entries, k);
    hide *;
    FlattenOne(FieldMarks(entries, met), k);
  }

  lemma FieldInner(render: Json -> string, entries: seq<Entry>)
    requires DistinctKeys(entries) && IsField(entries)
    ensures CountedAll(render, Object(entries), Inner(Object(entries))) == [Named(FieldName(entries), FieldText(render, entries))]
  {
    var j, met := Object(entries), [Named(FieldName(entries), FieldText(render, entries))];
    InnerParts(j);
    hide *;
    forall i | 0 <= i < |entries| ensures CountedAll(render, j, MemberPaths(entries)[i]) == FieldMarks(entries, met)[i] {
      FieldPartCounted(render, entries, i);
    }
    CountedFlat(render, j, MemberPaths(entries), FieldMarks(entries, met));
    OneValue(entries, met);
  }

  lemma FieldMet(render: Json -> string, entries: seq<Entry>)
    requires DistinctKeys(entries) && IsField(entries)
    ensures Positions(render, Object(entries)) == CountedAll(render, Object(entries), Paths(Object(entries)))
  {
    var j := Object(entries);
    FieldInner(render, entries);
    CountedHead(render, j, Inner(j));
    hide Inner, IsField, FieldName, FieldText, CountedAll, DistinctKeys;
  }

  // ---- the paths are all paths ---------------------------------------------------------------

  lemma {:induction false} UnderCount(step: Step, paths: seq<Route>, r: Route)
    ensures multiset(Under(step, paths))[r] == if r != [] && r[0] == step then multiset(paths)[r[1..]] else 0
  {
    if paths != [] {
      var front, x := paths[..|paths|-1], paths[|paths|-1];
      assert paths == front + [x];
      UnderCount(step, front, r);
      assert Under(step, paths) == Under(step, front) + [[step] + x];
      hide Under;
      assert ([step] + x)[1..] == x;
      assert r == [step] + x <==> r != [] && r[0] == step && r[1..] == x by {
        if r != [] { assert r == [r[0]] + r[1..]; }
      }
    }
  }

  lemma PathsCount(j: Json, r: Route)
    requires r != []
    ensures multiset(Paths(j))[r] == multiset(Inner(j))[r]
  {
    hide Inner;
    var one: seq<Route> := [[]];
    assert multiset(one)[r] == 0;
    assert multiset(Paths(j)) == multiset(one) + multiset(Inner(j));
  }

  lemma ItemsAll(items: seq<Json>, r: Route)
    requires r != []
    ensures multiset(Inner(Array(items)))[r] ==
      if r[0].Item? && r[0].index < |items| then multiset(Paths(items[r[0].index]))[r[1..]] else 0
  {
    var parts := ItemPaths(items);
    InnerParts(Array(items));
    hide Inner, Paths, Under, Flatten;
    forall i | 0 <= i < |items|
      ensures multiset(parts[i])[r] == if r[0] == Item(i) then multiset(Paths(items[i]))[r[1..]] else 0
    {
      UnderCount(Item(i), Paths(items[i]), r);
    }
    if r[0].Item? && r[0].index < |items| { FlattenCount(parts, r[0].index, r); } else { FlattenCountNone(parts, r); }
  }

  lemma OnlyHere(entries: seq<Entry>, k: nat)
    requires k < |entries| && DistinctKeys(entries)
    ensures forall i :: 0 <= i < |entries| && i != k ==> entries[i].key != entries[k].key
  {
  }

  lemma EntriesAll(entries: seq<Entry>, r: Route)
    requires r != [] && DistinctKeys(entries)
    ensures multiset(Inner(Object(entries)))[r] ==
      if r[0].Member? && HasKey(entries, r[0].key) then multiset(Paths(ValueAt(entries, r[0].key)))[r[1..]] else 0
  {
    var parts := MemberPaths(entries);
    InnerParts(Object(entries));
    forall i | 0 <= i < |entries|
      ensures multiset(parts[i])[r] == if r[0] == Member(entries[i].key) then multiset(Paths(entries[i].value))[r[1..]] else 0
    {
      hide Inner, Paths, Under, Flatten, ValueAt, HasKey, DistinctKeys;
      UnderCount(Member(entries[i].key), Paths(entries[i].value), r);
    }
    if r[0].Member? && HasKey(entries, r[0].key) {
      var k: nat :| k < |entries| && entries[k].key == r[0].key;
      OwnValue(entries, k);
      hide *;
      OnlyHere(entries, k);
      FlattenCount(parts, k, r);
    } else {
      hide Inner, Paths, Under, Flatten, ValueAt;
      FlattenCountNone(parts, r);
    }
  }

  lemma ValueUnique(entries: seq<Entry>, key: string)
    requires UniqueKeys(Object(entries)) && HasKey(entries, key)
    ensures UniqueKeys(ValueAt(entries, key))
    ensures DistinctKeys(entries)
  {
    hide DistinctKeys;
  }

  /** Every path that leads somewhere is listed exactly once, and no other. */
  lemma {:induction false} PathsAreAll(j: Json, r: Route)
    requires UniqueKeys(j)
    ensures multiset(Paths(j))[r] == if At(j, r).Some? then 1 else 0
    decreases |r|
  {
    if r == [] {
      NoEmptyInner(j);
    } else {
      AtStep(j, r);
      PathsCount(j, r);
      match j
      case Array(items) =>
        ItemsAll(items, r);
        if Child(j, r[0]).Some? { PathsAreAll(items[r[0].index], r[1..]); }
      case Object(entries) =>
        EntriesAll(entries, r);
        if Child(j, r[0]).Some? {
          ValueUnique(entries, r[0].key);
          PathsAreAll(ValueAt(entries, r[0].key), r[1..]);
        }
      case _ => NoInner(j);
    }
    hide Paths, Inner, At, ValueAt, HasKey;
  }

  lemma NoEmptyInner(j: Json)
    ensures multiset(Paths(j))[[]] == 1
  {
    var one: seq<Route> := [[]];
    assert multiset(one)[[]] == 1;
    if [] in multiset(Inner(j)) { InnerIsDeep(j, []); }
    hide Inner;
    assert multiset(Paths(j)) == multiset(one) + multiset(Inner(j));
  }
}
