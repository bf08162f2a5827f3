/** Properties of the note collector: the order of records over a list and the propagation
    of errors through it, what a single mapping contributes (its `rootTopic`, its own record,
    its children), and the rules by which a topic's `notes` resolve to text. */
module CollectorProperties {
  import opened PyJson
  import opened NoteCollector

  // ----- Lists: order and error propagation -----

  lemma ConcatAssoc(a: Option<seq<Record>>, b: Option<seq<Record>>, c: Option<seq<Record>>)
    ensures Concat(Concat(a, b), c) == Concat(a, Concat(b, c))
  {
    if a.Some? && b.Some? && c.Some? {
      assert (a.value + b.value) + c.value == a.value + (b.value + c.value);
    }
  }

  /** Walking `xs + ys` walks `xs`, then `ys`, with the same inherited path. */
  lemma {:induction false} CollectListAppend(xs: seq<Json>, ys: seq<Json>, parent: string)
    requires forall i | 0 <= i < |xs| :: Readable(xs[i])
    requires forall i | 0 <= i < |ys| :: Readable(ys[i])
    ensures forall i | 0 <= i < |xs + ys| :: Readable((xs + ys)[i])
    ensures CollectList(xs + ys, parent) == Concat(CollectList(xs, parent), CollectList(ys, parent))
    decreases |xs|
  {
    assert forall i | 0 <= i < |xs + ys| :: Readable((xs + ys)[i]) by {
      forall i | 0 <= i < |xs + ys| ensures Readable((xs + ys)[i]) {
        if i < |xs| { assert (xs + ys)[i] == xs[i]; } else { assert (xs + ys)[i] == ys[i - |xs|]; }
      }
    }
    if xs == [] {
      assert xs + ys == ys;
      if CollectList(ys, parent).Some? {
        assert [] + CollectList(ys, parent).value == CollectList(ys, parent).value;
      }
    } else {
      assert (xs + ys)[0] == xs[0];
      assert (xs + ys)[1..] == xs[1..] + ys;
      CollectListAppend(xs[1..], ys, parent);
      ConcatAssoc(Collect(xs[0], parent), CollectList(xs[1..], parent), CollectList(ys, parent));
    }
  }

  /** The walk over a list raises exactly when the walk over one of its items raises. */
  lemma {:induction false} CollectListRaises(xs: seq<Json>, parent: string)
    requires forall i | 0 <= i < |xs| :: Readable(xs[i])
    ensures CollectList(xs, parent).None? <==> exists i | 0 <= i < |xs| :: Collect(xs[i], parent).None?
    decreases |xs|
  {
    if xs != [] {
      CollectListRaises(xs[1..], parent);
      if exists i | 0 <= i < |xs[1..]| :: Collect(xs[1..][i], parent).None? {
        var i :| 0 <= i < |xs[1..]| && Collect(xs[1..][i], parent).None?;
        assert xs[1..][i] == xs[i + 1];
      }
      if exists i | 0 <= i < |xs| :: Collect(xs[i], parent).None? {
        var i :| 0 <= i < |xs| && Collect(xs[i], parent).None?;
        if i > 0 { assert xs[1..][i - 1] == xs[i]; }
      }
    }
  }

  /** The records of item `i` follow those of every earlier item and precede those
      of every later one. */
  lemma CollectListOrder(xs: seq<Json>, i: nat, parent: string)
    requires forall k | 0 <= k < |xs| :: Readable(xs[k])
    requires i < |xs|
    ensures CollectList(xs, parent).Some? ==>
      && CollectList(xs[..i], parent).Some?
      && Collect(xs[i], parent).Some?
      && CollectList(xs[i + 1..], parent).Some?
      && CollectList(xs, parent).value ==
           CollectList(xs[..i], parent).value + Collect(xs[i], parent).value
           + CollectList(xs[i + 1..], parent).value
  {
    assert xs == xs[..i] + ([xs[i]] + xs[i + 1..]);
    CollectListAppend(xs[..i], [xs[i]] + xs[i + 1..], parent);
    CollectListAppend([xs[i]], xs[i + 1..], parent);
    assert ([xs[i]] + xs[i + 1..])[0] == xs[i];
    assert CollectList([xs[i]], parent) == Concat(Collect(xs[i], parent), Some([]));
    if CollectList(xs, parent).Some? {
      var c := Collect(xs[i], parent).value;
      assert c + [] == c;
    }
  }

  // ----- Structure of one mapping -----

  /** `rootTopic` is walked first, from the empty path, whatever path the caller held. */
  lemma RootTopicFirst(m: map<string, Json>, parent: string)
    requires Readable(JObj(m)) && RootTopicKey in m
    ensures Collect(JObj(m), parent).Some? ==>
      && Collect(m[RootTopicKey], "").Some?
      && Collect(m[RootTopicKey], "").value <= Collect(JObj(m), parent).value
  {
  }

  /** A titled mapping whose `children.attached` is a list yields, in order, the records of
      its `rootTopic` (walked from the empty path), its own record, then the records of its
      children; its own record and its children use the caller's path, not the reset one. */
  lemma TopicPreOrder(m: map<string, Json>, parent: string, children: seq<Json>)
    requires Readable(JObj(m)) && TitleKey in m
    requires ChildrenKey in m && m[ChildrenKey].JObj?
    requires AttachedKey in m[ChildrenKey].fields && m[ChildrenKey].fields[AttachedKey] == JArr(children)
    ensures forall i | 0 <= i < |children| :: Readable(children[i])
    ensures Collect(JObj(m), parent) ==
      Concat(if RootTopicKey in m then Collect(m[RootTopicKey], "") else Some([]),
             Concat(OwnRecord(m, FullTitle(parent, Text(m[TitleKey]))),
                    CollectList(children, FullTitle(parent, Text(m[TitleKey])))))
  {
    var path := FullTitle(parent, Text(m[TitleKey]));
    assert ReadableTopic(JObj(m));
    assert ReadableChildren(m[ChildrenKey]);
    assert Truthy(m[ChildrenKey]);
    assert CollectChildren(m[ChildrenKey], path) == CollectList(children, path);
    assert CollectTitled(JObj(m), parent) == Concat(OwnRecord(m, path), CollectList(children, path));
  }

  /** A mapping with neither `title` nor `rootTopic` contributes nothing, even with children. */
  lemma UntitledMappingIsInert(m: map<string, Json>, parent: string)
    requires Readable(JObj(m)) && TitleKey !in m && RootTopicKey !in m
    ensures Collect(JObj(m), parent) == Some([])
  {
  }

  /** Strings, None, booleans and numbers contribute nothing. */
  lemma ScalarIsInert(v: Json, parent: string)
    requires !v.JObj? && !v.JArr?
    ensures Collect(v, parent) == Some([])
  {
  }

  /** A titled mapping yields a record of its own exactly when its notes are truthy and
      resolve to non-empty text, and that record carries the topic's path. */
  lemma OwnRecordIff(m: map<string, Json>, path: string, text: string)
    ensures OwnRecord(m, path) == Some([Record(path, text)]) <==>
      NotesKey in m && Truthy(m[NotesKey]) && ResolveNote(m[NotesKey]) == Some(text) && text != ""
    ensures OwnRecord(m, path) == Some([]) <==>
      !(NotesKey in m && Truthy(m[NotesKey])) || ResolveNote(m[NotesKey]) == Some("")
  {
  }

  // ----- Note resolution -----

  /** With both formats present, the rich-text `realHTML.content` is the note. */
  lemma RealHtmlOverridesPlain(notes: map<string, Json>, plainText: string, htmlText: string)
    requires PlainKey in notes && notes[PlainKey].JObj?
    requires ContentKey in notes[PlainKey].fields && notes[PlainKey].fields[ContentKey] == JStr(plainText)
    requires RealHtmlKey in notes && notes[RealHtmlKey].JObj?
    requires ContentKey in notes[RealHtmlKey].fields && notes[RealHtmlKey].fields[ContentKey] == JStr(htmlText)
    ensures ResolveNote(JObj(notes)) == Some(htmlText)
  {
  }

  /** Without `realHTML`, the note is `plain.content`. */
  lemma PlainUsedAlone(notes: map<string, Json>, plainText: string)
    requires PlainKey in notes && notes[PlainKey].JObj?
    requires ContentKey in notes[PlainKey].fields && notes[PlainKey].fields[ContentKey] == JStr(plainText)
    requires RealHtmlKey !in notes
    ensures ResolveNote(JObj(notes)) == Some(plainText)
  {
  }

  /** With neither format, the note is empty, so no record follows. */
  lemma NoFormatGivesEmptyNote(notes: map<string, Json>)
    requires PlainKey !in notes && RealHtmlKey !in notes
    ensures ResolveNote(JObj(notes)) == Some("")
  {
  }

  /** A string-valued `notes` raises exactly when it contains `plain` or `realHTML`. */
  lemma StringNotesRaise(s: string)
    ensures ResolveNote(JStr(s)).None? <==> IsInfix(PlainKey, s) || IsInfix(RealHtmlKey, s)
    ensures ResolveNote(JStr(s)).Some? ==> ResolveNote(JStr(s)) == Some("")
  {
  }

  /** A string-valued `plain` raises exactly when it contains `content`. */
  lemma StringPlainRaises(notes: map<string, Json>, s: string)
    requires PlainKey in notes && notes[PlainKey] == JStr(s)
    requires RealHtmlKey !in notes
    ensures ResolveNote(JObj(notes)).None? <==> IsInfix(ContentKey, s)
  {
  }

  /** A truthy boolean or number as `notes` raises. */
  lemma ScalarNotesRaise(v: Json)
    requires v.JBool? || v.JNum?
    ensures ResolveNote(v) == None
  {
  }
}
