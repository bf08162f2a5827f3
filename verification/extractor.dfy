/** The extractor as the Python class runs it: `_parse_topics` appends to one shared
    result list while it recurses. Each method returns `true` when the Python code would
    raise; the records appended so far are then left in place and abandoned. */
module NoteExtractor {
  import opened PyJson
  import opened NoteCollector
  import CollectorProperties

  /** The list that every recursive call of `_parse_topics` appends to. */
  class NoteList {
    var records: seq<Record>

    constructor ()
      ensures records == []
    {
      records := [];
    }

    method Append(r: Record)
      modifies this
      ensures records == old(records) + [r]
    {
      records := records + [r];
    }
  }

  /** `_parse_topics(data, result, parent_title)`. */
  method ParseTopics(data: Json, result: NoteList, parentTitle: string) returns (raised: bool)
    requires Readable(data)
    modifies result
    ensures old(result.records) <= result.records
    ensures raised <==> Collect(data, parentTitle).None?
    ensures !raised ==> result.records == old(result.records) + Collect(data, parentTitle).value
    decreases data, 1
  {
    raised := false;
    match data {
      case JObj(m) =>
        if RootTopicKey in m {
          raised := ParseTopics(m[RootTopicKey], result, "");
          if raised {
            return;
          }
        }
        if TitleKey in m {
          raised := ParseTitled(data, result, parentTitle);
        }
      case JArr(items) =>
        raised := ParseItems(items, result, parentTitle);
      case _ =>
    }
  }

  /** The `'title' in data` branch of `_parse_topics`: the path, the note, the children. */
  method ParseTitled(topic: Json, result: NoteList, parentTitle: string) returns (raised: bool)
    requires topic.JObj? && TitleKey in topic.fields && ReadableTopic(topic)
    modifies result
    ensures old(result.records) <= result.records
    ensures raised <==> CollectTitled(topic, parentTitle).None?
    ensures !raised ==> result.records == old(result.records) + CollectTitled(topic, parentTitle).value
    decreases topic, 0
  {
    var m := topic.fields;
    var fullTitle := FullTitle(parentTitle, Text(m[TitleKey]));
    if NotesKey in m && Truthy(m[NotesKey]) {
      var notesContent := ResolveNote(m[NotesKey]);
      if notesContent.None? {
        return true;
      }
      if notesContent.value != "" {
        result.Append(Record(fullTitle, notesContent.value));
      }
    }
    assert result.records == old(result.records) + OwnRecord(m, fullTitle).value;
    raised := false;
    if ChildrenKey in m && Truthy(m[ChildrenKey]) {
      ghost var afterOwn := result.records;
      raised := ParseChildren(m[ChildrenKey], result, fullTitle);
      if !raised {
        assert result.records == afterOwn + CollectChildren(m[ChildrenKey], fullTitle).value;
      }
    } else {
      assert OwnRecord(m, fullTitle).value + [] == OwnRecord(m, fullTitle).value;
    }
  }

  /** The `children` branch of `_parse_topics`: `'attached' in children`, then the loop
      over `children['attached']`. */
  method ParseChildren(children: Json, result: NoteList, fullTitle: string) returns (raised: bool)
    requires ReadableChildren(children)
    modifies result
    ensures old(result.records) <= result.records
    ensures raised <==> CollectChildren(children, fullTitle).None?
    ensures !raised ==> result.records == old(result.records) + CollectChildren(children, fullTitle).value
    decreases children, 0
  {
    raised := false;
    match children {
      case JObj(cm) =>
        if AttachedKey in cm {
          var attached := cm[AttachedKey];
          match attached {
            case JArr(items) =>
              raised := ParseItems(items, result, fullTitle);
            case JObj(_) =>
            case JStr(_) =>
            case _ =>
              raised := true;
          }
        }
      case _ =>
        raised := Member(children, AttachedKey).Raises?;
    }
  }

  /** The loops over a list: every item is walked with the same parent path, in order. */
  method ParseItems(items: seq<Json>, result: NoteList, parentTitle: string) returns (raised: bool)
    requires forall i | 0 <= i < |items| :: Readable(items[i])
    modifies result
    ensures old(result.records) <= result.records
    ensures raised <==> CollectList(items, parentTitle).None?
    ensures !raised ==> result.records == old(result.records) + CollectList(items, parentTitle).value
    decreases items, 0
  {
    raised := false;
    for i := 0 to |items|
      invariant CollectList(items[..i], parentTitle).Some?
      invariant result.records == old(result.records) + CollectList(items[..i], parentTitle).value
    {
      ghost var before := result.records;
      raised := ParseTopics(items[i], result, parentTitle);
      assert items[..i + 1] == items[..i] + [items[i]];
      CollectorProperties.CollectListAppend(items[..i], [items[i]], parentTitle);
      assert CollectList([items[i]], parentTitle) == Concat(Collect(items[i], parentTitle), Some([]));
      if raised {
        assert items == items[..i + 1] + items[i + 1..];
        CollectorProperties.CollectListAppend(items[..i + 1], items[i + 1..], parentTitle);
        return;
      }
      assert Collect(items[i], parentTitle).value + [] == Collect(items[i], parentTitle).value;
    }
    assert items[..|items|] == items;
  }

  /** `extract_notes` once the document is decoded: a fresh result list, one walk from the
      empty path, and the empty list whenever the walk raised. */
  method ExtractNotes(contentData: Json) returns (notes: seq<Record>)
    requires Readable(contentData)
    ensures notes == Extract(contentData)
    ensures forall i | 0 <= i < |notes| :: notes[i].notes != ""
  {
    var result := new NoteList();
    var raised := ParseTopics(contentData, result, "");
    if raised {
      return [];
    }
    notes := result.records;
  }
}
