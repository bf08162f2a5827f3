/** Worked examples: small documents and the records the extraction yields for them. */
module CollectorExamples {
  import opened PyJson
  import opened NoteCollector

  function PlainNote(text: string): Json {
    JObj(map[PlainKey := JObj(map[ContentKey := JStr(text)])])
  }

  function NotedTopic(title: string, text: string): Json {
    JObj(map[TitleKey := JStr(title), NotesKey := PlainNote(text)])
  }

  function WithChildren(fields: map<string, Json>, children: seq<Json>): Json {
    JObj(fields[ChildrenKey := JObj(map[AttachedKey := JArr(children)])])
  }

  lemma NotedTopicYields(title: string, text: string, parent: string)
    requires text != ""
    ensures Readable(NotedTopic(title, text))
    ensures Collect(NotedTopic(title, text), parent) == Some([Record(FullTitle(parent, title), text)])
  {
    var topic := NotedTopic(title, text);
    var m := topic.fields;
    assert ContentOf(PlainNote(text), PlainKey) == Present(JStr(text));
    assert NoteIsText(PlainNote(text));
    assert ReadableTopic(topic);
    var r := [Record(FullTitle(parent, title), text)];
    assert ResolveNote(m[NotesKey]) == Some(text);
    assert OwnRecord(m, FullTitle(parent, title)) == Some(r);
    assert ChildrenKey !in m && RootTopicKey !in m;
    assert CollectTitled(topic, parent) == Some(r) by { assert r + [] == r; }
    assert Concat(Some([]), Some(r)) == Some(r) by { assert [] + r == r; }
  }

  /** A titled root with one noted child yields the child's note under `Root > Child`. */
  lemma RootAndChild()
    ensures var doc := WithChildren(map[TitleKey := JStr("Root")], [NotedTopic("Child", "hello")]);
      Readable(doc) && Extract(doc) == [Record("Root > Child", "hello")]
  {
    var child := NotedTopic("Child", "hello");
    NotedTopicYields("Child", "hello", "Root");
    assert FullTitle("Root", "Child") == "Root > Child";
    var r := [Record("Root > Child", "hello")];
    assert CollectList([child], "Root") == Some(r) by { assert r + [] == r; }
    var doc := WithChildren(map[TitleKey := JStr("Root")], [child]);
    assert doc.fields[ChildrenKey] == JObj(map[AttachedKey := JArr([child])]);
    assert NotesKey !in doc.fields && Text(doc.fields[TitleKey]) == "Root";
    assert OwnRecord(doc.fields, "Root") == Some([]);
    assert AttachedKey in doc.fields[ChildrenKey].fields;
    assert Truthy(doc.fields[ChildrenKey]);
    assert CollectChildren(doc.fields[ChildrenKey], "Root") == Some(r);
    assert CollectTitled(doc, "") == Some(r) by { assert [] + r == r; }
    assert Concat(Some([]), Some(r)) == Some(r) by { assert [] + r == r; }
  }

  /** A document wrapped in `rootTopic` yields the wrapped topic's note under its own title. */
  lemma WrappedRootTopic()
    ensures var doc := JObj(map[RootTopicKey := NotedTopic("R", "x")]);
      Readable(doc) && Extract(doc) == [Record("R", "x")]
  {
    NotedTopicYields("R", "x", "");
    var r := [Record("R", "x")];
    assert Concat(Some(r), Some([])) == Some(r) by { assert r + [] == r; }
  }

  /** An untitled mapping hides its children: a noted child is never reached. */
  lemma UntitledParentHidesChild()
    ensures var doc := WithChildren(map[], [NotedTopic("C", "y")]);
      Readable(doc) && Extract(doc) == []
  {
    var child := NotedTopic("C", "y");
    NotedTopicYields("C", "y", "");
  }

  /** Fields the walk never reads may hold anything: a `content` list inside an
      `extensions` entry does not stop the topic's note from being collected. */
  lemma UnreadFieldsAnyShape()
    ensures var extension := JObj(map["provider" := JStr("p"), ContentKey := JArr([])]);
      var doc := JObj(map[TitleKey := JStr("A"), NotesKey := PlainNote("x"),
                          "extensions" := JArr([extension])]);
      Readable(doc) && Extract(doc) == [Record("A", "x")]
  {
    var extension := JObj(map["provider" := JStr("p"), ContentKey := JArr([])]);
    var doc := JObj(map[TitleKey := JStr("A"), NotesKey := PlainNote("x"),
                        "extensions" := JArr([extension])]);
    var m := doc.fields;
    assert ContentOf(PlainNote("x"), PlainKey) == Present(JStr("x"));
    assert NoteIsText(m[NotesKey]);
    assert ChildrenKey !in m && RootTopicKey !in m;
    assert ReadableTopic(doc);
    var r := [Record("A", "x")];
    assert ResolveNote(m[NotesKey]) == Some("x");
    assert OwnRecord(m, "A") == Some(r);
    assert CollectTitled(doc, "") == Some(r) by { assert r + [] == r; }
    assert Concat(Some([]), Some(r)) == Some(r) by { assert [] + r == r; }
  }

  /** A `null` `realHTML.content` still overrides `plain.content`: the note becomes falsy
      and the topic yields no record. */
  lemma NullHtmlOverridesPlain()
    ensures var notes := JObj(map[PlainKey := JObj(map[ContentKey := JStr("x")]),
                                  RealHtmlKey := JObj(map[ContentKey := JNull])]);
      var doc := JObj(map[TitleKey := JStr("A"), NotesKey := notes]);
      Readable(doc) && Extract(doc) == []
  {
    var notes := JObj(map[PlainKey := JObj(map[ContentKey := JStr("x")]),
                          RealHtmlKey := JObj(map[ContentKey := JNull])]);
    var doc := JObj(map[TitleKey := JStr("A"), NotesKey := notes]);
    var m := doc.fields;
    assert ContentOf(notes, RealHtmlKey) == Present(JNull);
    assert ContentOf(notes, PlainKey) == Present(JStr("x"));
    assert NoteIsText(notes);
    assert ChildrenKey !in m && RootTopicKey !in m;
    assert ReadableTopic(doc);
    assert ResolveNote(notes) == Some("");
    assert OwnRecord(m, "A") == Some([]);
    assert CollectTitled(doc, "") == Some([]);
  }

  /** When probing `plain` raises, `realHTML` is never read: its `content` may be a number,
      and the document is still covered; it extracts nothing. */
  lemma PlainRaisesBeforeHtml()
    ensures var notes := JObj(map[PlainKey := JStr("content"),
                                  RealHtmlKey := JObj(map[ContentKey := JNum(5.0)])]);
      var doc := JObj(map[TitleKey := JStr("A"), NotesKey := notes]);
      Readable(doc) && Extract(doc) == []
  {
    var notes := JObj(map[PlainKey := JStr("content"),
                          RealHtmlKey := JObj(map[ContentKey := JNum(5.0)])]);
    var doc := JObj(map[TitleKey := JStr("A"), NotesKey := notes]);
    var m := doc.fields;
    assert IsInfix(ContentKey, "content");
    assert ContentOf(notes, PlainKey) == Raises;
    assert NoteIsText(notes);
    assert ChildrenKey !in m && RootTopicKey !in m;
    assert ReadableTopic(doc);
    assert Truthy(notes);
    assert ResolveNote(notes) == None;
    assert OwnRecord(m, "A") == None;
    assert CollectTitled(doc, "") == None;
    assert Collect(doc, "") == None;
  }

  /** A string-valued `notes` that mentions `plain` makes Python raise. */
  lemma StringNotesTopicRaises(title: string, notes: string, i: nat)
    requires OccursAt(PlainKey, notes, i)
    ensures Readable(JObj(map[TitleKey := JStr(title), NotesKey := JStr(notes)]))
    ensures Collect(JObj(map[TitleKey := JStr(title), NotesKey := JStr(notes)]), "") == None
  {
    var topic := JObj(map[TitleKey := JStr(title), NotesKey := JStr(notes)]);
    OccurrenceIsInfix(PlainKey, notes, i);
    assert Member(JStr(notes), PlainKey) == Raises;
    assert ResolveNote(JStr(notes)) == None;
    assert OwnRecord(topic.fields, title) == None;
    assert CollectTitled(topic, "") == None;
  }

  /** One malformed note anywhere discards every record, including those already found. */
  lemma NoPartialResults()
    ensures var good := NotedTopic("A", "kept");
      var bad := JObj(map[TitleKey := JStr("B"), NotesKey := JStr("a plain")]);
      && Readable(JArr([good, bad]))
      && Collect(good, "") == Some([Record("A", "kept")])
      && Extract(JArr([good, bad])) == []
  {
    var good := NotedTopic("A", "kept");
    var bad := JObj(map[TitleKey := JStr("B"), NotesKey := JStr("a plain")]);
    NotedTopicYields("A", "kept", "");
    assert "a plain"[2..2 + |PlainKey|] == PlainKey;
    StringNotesTopicRaises("B", "a plain", 2);
    assert CollectList([bad], "") == None;
    assert [good, bad][1..] == [bad];
    assert CollectList([good, bad], "") == None;
  }
}
