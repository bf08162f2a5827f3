/** The note collector: the depth-first, pre-order walk over decoded mind-map topics
    that builds breadcrumb paths and collects `{title, notes}` records. Python's
    exceptions are part of the model: a collector result of `None` means the walk
    raised, and the extraction as a whole then yields no records at all. */
module NoteCollector {
  import opened PyJson

  const RootTopicKey := "rootTopic"
  const TitleKey := "title"
  const NotesKey := "notes"
  const ChildrenKey := "children"
  const AttachedKey := "attached"
  const PlainKey := "plain"
  const RealHtmlKey := "realHTML"
  const ContentKey := "content"

  /** One extracted note: the breadcrumb path of its topic and the note text. */
  datatype Record = Record(title: string, notes: string)

  /** The inputs this model covers: the `title` of every mapping the walk treats as a topic
      is a string, and so is the `content` that becomes its note unless that is falsy.
      The restriction follows the shape of the tree, not a run of the walk: it also applies
      to topics the walk would never reach because an earlier step raised. Fields the walk
      never looks at (keys other than `rootTopic`, `title`, `notes` and `children`) may hold
      anything. */
  predicate Readable(v: Json)
    decreases v, 1
  {
    match v
    case JObj(m) =>
      && (RootTopicKey in m ==> Readable(m[RootTopicKey]))
      && (TitleKey in m ==> ReadableTopic(v))
    case JArr(xs) => forall i | 0 <= i < |xs| :: Readable(xs[i])
    case _ => true
  }

  /** A titled mapping the walk visits: a string title, a note that resolves to a string,
      and readable items under `children.attached`. */
  predicate ReadableTopic(topic: Json)
    requires topic.JObj? && TitleKey in topic.fields
    decreases topic, 0
  {
    var m := topic.fields;
    && m[TitleKey].JStr?
    && (NotesKey in m ==> NoteIsText(m[NotesKey]))
    && (ChildrenKey in m ==> ReadableChildren(m[ChildrenKey]))
  }

  predicate ReadableChildren(children: Json)
    decreases children, 0
  {
    match children
    case JObj(cm) =>
      AttachedKey in cm ==>
        (match cm[AttachedKey]
         case JArr(xs) => forall i | 0 <= i < |xs| :: Readable(xs[i])
         case _ => true)
    case _ => true
  }

  /** The `content` that ends up as the note (`realHTML.content` when present, otherwise
      `plain.content`) is a string or a falsy value, which yields no record. Nothing is
      asked of `realHTML` when probing `plain` already raises. */
  predicate NoteIsText(notes: Json) {
    match ContentOf(notes, RealHtmlKey)
    case Present(html) => ContentOf(notes, PlainKey).Raises? || html.JStr? || !Truthy(html)
    case Missing =>
      ContentOf(notes, PlainKey).Present? ==>
        ContentOf(notes, PlainKey).value.JStr? || !Truthy(ContentOf(notes, PlainKey).value)
    case Raises => true
  }

  /** Sequencing of two steps that may raise: the first failure wins. */
  function Concat(a: Option<seq<Record>>, b: Option<seq<Record>>): Option<seq<Record>> {
    if a.Some? && b.Some? then Some(a.value + b.value) else None
  }

  predicate NotesNonEmpty(r: Option<seq<Record>>) {
    r.Some? ==> forall i | 0 <= i < |r.value| :: r.value[i].notes != ""
  }

  /** Breadcrumb path of a topic titled `title` under the path `parent`. */
  function FullTitle(parent: string, title: string): string {
    if parent != "" then parent + " > " + title else title
  }

  /** Under one parent path, different titles give different paths: the path determines
      the title. */
  lemma FullTitleInjective(parent: string, t1: string, t2: string)
    ensures FullTitle(parent, t1) == FullTitle(parent, t2) ==> t1 == t2
  {
    if parent != "" && FullTitle(parent, t1) == FullTitle(parent, t2) {
      var n := |parent + " > "|;
      assert FullTitle(parent, t1)[n..] == t1;
      assert FullTitle(parent, t2)[n..] == t2;
    }
  }

  /** `'<format>' in notes and 'content' in notes['<format>']`, then the subscript. */
  function ContentOf(notes: Json, format: string): (r: Probe)
    ensures r.Present? <==>
      && notes.JObj? && format in notes.fields
      && notes.fields[format].JObj? && ContentKey in notes.fields[format].fields
    ensures r.Present? ==> r.value == notes.fields[format].fields[ContentKey]
  {
    match Member(notes, format)
    case Raises => Raises
    case Missing => Missing
    case Present(f) => Member(f, ContentKey)
  }

  /** The note text of a truthy `notes` value: empty to begin with, then `plain.content`,
      then `realHTML.content` overriding it; `None` when one of the probes raises. */
  function ResolveNote(notes: Json): (note: Option<string>)
    ensures note.None? <==> ContentOf(notes, PlainKey).Raises? || ContentOf(notes, RealHtmlKey).Raises?
    ensures var html := ContentOf(notes, RealHtmlKey);
      !ContentOf(notes, PlainKey).Raises? && html.Present? ==>
        note == Some(if html.value.JStr? then html.value.str else "")
    ensures var plain := ContentOf(notes, PlainKey);
      ContentOf(notes, RealHtmlKey).Missing? && plain.Present? ==>
        note == Some(if plain.value.JStr? then plain.value.str else "")
    ensures ContentOf(notes, RealHtmlKey).Missing? && ContentOf(notes, PlainKey).Missing? ==>
      note == Some("")
  {
    var plain := ContentOf(notes, PlainKey);
    var html := ContentOf(notes, RealHtmlKey);
    if plain.Raises? || html.Raises? then None
    else if html.Present? then Some(Text(html.value))
    else if plain.Present? then Some(Text(plain.value))
    else Some("")
  }

  /** The record a titled mapping `m` contributes itself, its path being `path`. */
  function OwnRecord(m: map<string, Json>, path: string): (r: Option<seq<Record>>)
    ensures NotesNonEmpty(r) && (r.Some? ==> |r.value| <= 1)
  {
    if NotesKey in m && Truthy(m[NotesKey]) then
      match ResolveNote(m[NotesKey])
      case None => None
      case Some(text) => if text != "" then Some([Record(path, text)]) else Some([])
    else Some([])
  }

  /** The walk from one value with inherited path `parent`. */
  function Collect(data: Json, parent: string): (r: Option<seq<Record>>)
    requires Readable(data)
    ensures NotesNonEmpty(r)
    decreases data, 1
  {
    match data
    case JObj(m) =>
      var fromRoot := if RootTopicKey in m then Collect(m[RootTopicKey], "") else Some([]);
      var fromTopic := if TitleKey in m then CollectTitled(data, parent) else Some([]);
      Concat(fromRoot, fromTopic)
    case JArr(xs) => CollectList(xs, parent)
    case _ => Some([])
  }

  /** The walk over a titled mapping, after its `rootTopic`: its own record, then its children. */
  function CollectTitled(topic: Json, parent: string): (r: Option<seq<Record>>)
    requires topic.JObj? && TitleKey in topic.fields && ReadableTopic(topic)
    ensures NotesNonEmpty(r)
    decreases topic, 0
  {
    var m := topic.fields;
    var path := FullTitle(parent, Text(m[TitleKey]));
    var fromChildren :=
      if ChildrenKey in m && Truthy(m[ChildrenKey]) then CollectChildren(m[ChildrenKey], path)
      else Some([]);
    Concat(OwnRecord(m, path), fromChildren)
  }

  /** The walk over a truthy `children` value of a topic whose path is `path`. */
  function CollectChildren(children: Json, path: string): (r: Option<seq<Record>>)
    requires ReadableChildren(children)
    ensures NotesNonEmpty(r)
    decreases children, 0
  {
    match children
    case JObj(cm) =>
      if AttachedKey in cm then
        var attached := cm[AttachedKey];
        match attached
        case JArr(xs) => CollectList(xs, path)
        // iterating a mapping or a string yields strings, which contribute nothing
        case JObj(_) => Some([])
        case JStr(_) => Some([])
        // None, booleans and numbers are not iterable
        case _ => None
      else Some([])
    case _ => if Member(children, AttachedKey).Raises? then None else Some([])
  }

  /** The walk over the items of a list, each with the same inherited path. */
  function CollectList(items: seq<Json>, parent: string): (r: Option<seq<Record>>)
    requires forall i | 0 <= i < |items| :: Readable(items[i])
    ensures NotesNonEmpty(r)
    decreases items, 0
  {
    if items == [] then Some([])
    else Concat(Collect(items[0], parent), CollectList(items[1..], parent))
  }

  /** `extract_notes` after decoding: any exception turns the result into the empty list. */
  function Extract(contentData: Json): (notes: seq<Record>)
    requires Readable(contentData)
    ensures forall i | 0 <= i < |notes| :: notes[i].notes != ""
    ensures Collect(contentData, "").Some? ==> notes == Collect(contentData, "").value
    ensures Collect(contentData, "").None? ==> notes == []
  {
    match Collect(contentData, "")
    case Some(records) => records
    case None => []
  }
}
