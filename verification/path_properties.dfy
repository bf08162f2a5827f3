/** Breadcrumb paths: how the path a topic receives relates to the titles above it. */
module PathProperties {
  import opened PyJson
  import opened NoteCollector

  const Separator := " > "

  /** The path handed down after passing through topics titled `titles`, outermost first,
      starting from the path `parent`. */
  function PathThrough(parent: string, titles: seq<string>): string
    decreases |titles|
  {
    if titles == [] then parent else PathThrough(FullTitle(parent, titles[0]), titles[1..])
  }

  /** `" > " + t` for every title `t`, in order. */
  function Suffixes(titles: seq<string>): string
    decreases |titles|
  {
    if titles == [] then "" else Separator + titles[0] + Suffixes(titles[1..])
  }

  /** The titles joined by `" > "`. */
  function Join(titles: seq<string>): string {
    if titles == [] then "" else titles[0] + Suffixes(titles[1..])
  }

  /** The titles after the leading empty ones. */
  function DropLeadingEmpty(titles: seq<string>): (rest: seq<string>)
    ensures rest == [] || rest[0] != ""
    ensures |rest| <= |titles| && rest == titles[|titles| - |rest|..]
    decreases |titles|
  {
    if titles != [] && titles[0] == "" then DropLeadingEmpty(titles[1..]) else titles
  }

  /** Below a non-empty path every title is appended with the separator. */
  lemma {:induction false} PathThroughNonEmpty(parent: string, titles: seq<string>)
    requires parent != ""
    ensures PathThrough(parent, titles) == parent + Suffixes(titles)
    decreases |titles|
  {
    if titles != [] {
      var next := parent + Separator + titles[0];
      assert FullTitle(parent, titles[0]) == next;
      PathThroughNonEmpty(next, titles[1..]);
      assert next + Suffixes(titles[1..]) == parent + (Separator + titles[0] + Suffixes(titles[1..]));
    }
  }

  /** From the empty path, a topic's path is its ancestors' titles joined by `" > "`,
      except that leading empty titles leave no separator behind. */
  lemma {:induction false} PathFromRootIsJoin(titles: seq<string>)
    ensures PathThrough("", titles) == Join(DropLeadingEmpty(titles))
    decreases |titles|
  {
    if titles != [] {
      if titles[0] == "" {
        PathFromRootIsJoin(titles[1..]);
      } else {
        PathThroughNonEmpty(titles[0], titles[1..]);
      }
    }
  }

  /** With no `rootTopic` anywhere below. */
  predicate NoRootTopic(v: Json) {
    match v
    case JObj(m) => RootTopicKey !in m && forall k | k in m :: NoRootTopic(m[k])
    case JArr(xs) => forall i | 0 <= i < |xs| :: NoRootTopic(xs[i])
    case _ => true
  }

  /** Every collected title starts with `prefix`. */
  predicate Under(r: Option<seq<Record>>, prefix: string) {
    r.Some? ==> forall i | 0 <= i < |r.value| :: prefix <= r.value[i].title
  }

  lemma UnderConcat(a: Option<seq<Record>>, b: Option<seq<Record>>, prefix: string)
    requires Under(a, prefix) && Under(b, prefix)
    ensures Under(Concat(a, b), prefix)
  {
    if a.Some? && b.Some? {
      forall i | 0 <= i < |a.value + b.value| ensures prefix <= (a.value + b.value)[i].title {
        if i >= |a.value| { assert (a.value + b.value)[i] == b.value[i - |a.value|]; }
      }
    }
  }

  lemma UnderShorter(r: Option<seq<Record>>, short: string, long: string)
    requires short <= long && Under(r, long)
    ensures Under(r, short)
  {
    if r.Some? {
      forall i | 0 <= i < |r.value| ensures short <= r.value[i].title {
        assert long <= r.value[i].title;
        assert r.value[i].title[..|short|] == long[..|short|];
      }
    }
  }

  /** Without `rootTopic` resets, every record found below a non-empty path `parent`
      has a title that extends `parent + " > "`. */
  lemma {:induction false} CollectStaysUnder(data: Json, parent: string)
    requires Readable(data) && NoRootTopic(data) && parent != ""
    ensures Under(Collect(data, parent), parent + Separator)
    decreases data
  {
    match data
    case JObj(m) =>
      if TitleKey in m {
        var path := FullTitle(parent, Text(m[TitleKey]));
        assert ReadableTopic(data);
        assert path == (parent + Separator) + Text(m[TitleKey]);
        var fromChildren :=
          if ChildrenKey in m && Truthy(m[ChildrenKey]) then CollectChildren(m[ChildrenKey], path)
          else Some([]);
        if ChildrenKey in m && Truthy(m[ChildrenKey]) {
          ChildrenStayUnder(m[ChildrenKey], path);
          UnderShorter(fromChildren, parent + Separator, path + Separator);
        }
        UnderConcat(OwnRecord(m, path), fromChildren, parent + Separator);
        UnderConcat(Some([]), Concat(OwnRecord(m, path), fromChildren), parent + Separator);
      }
    case JArr(xs) => ListStaysUnder(xs, parent);
    case _ =>
  }

  lemma {:induction false} ChildrenStayUnder(children: Json, path: string)
    requires ReadableChildren(children) && NoRootTopic(children) && path != ""
    ensures Under(CollectChildren(children, path), path + Separator)
    decreases children
  {
    match children
    case JObj(cm) =>
      if AttachedKey in cm {
        var attached := cm[AttachedKey];
        assert NoRootTopic(attached);
        match attached
        case JArr(xs) => ListStaysUnder(xs, path);
        case _ =>
      }
    case _ =>
  }

  lemma {:induction false} ListStaysUnder(xs: seq<Json>, parent: string)
    requires forall i | 0 <= i < |xs| :: Readable(xs[i]) && NoRootTopic(xs[i])
    requires parent != ""
    ensures Under(CollectList(xs, parent), parent + Separator)
    decreases xs
  {
    if xs != [] {
      CollectStaysUnder(xs[0], parent);
      ListStaysUnder(xs[1..], parent);
      UnderConcat(Collect(xs[0], parent), CollectList(xs[1..], parent), parent + Separator);
    }
  }

  /** A chain of nested topics titled `titles`, each the single child of the one before,
      the innermost carrying the plain note `note`. */
  function Chain(titles: seq<string>, note: string): (c: Json)
    requires titles != []
    ensures Readable(c) && NoRootTopic(c)
    decreases |titles|
  {
    if |titles| == 1 then
      var content := JObj(map[ContentKey := JStr(note)]);
      var notes := JObj(map[PlainKey := content]);
      assert NoRootTopic(content) && NoRootTopic(notes);
      assert ContentOf(notes, PlainKey) == Present(JStr(note));
      assert NoteIsText(notes);
      JObj(map[TitleKey := JStr(titles[0]), NotesKey := notes])
    else
      var child := Chain(titles[1..], note);
      var attached := JArr([child]);
      var children := JObj(map[AttachedKey := attached]);
      assert NoRootTopic(attached) && NoRootTopic(children);
      assert ReadableChildren(children);
      JObj(map[TitleKey := JStr(titles[0]), ChildrenKey := children])
  }

  /** A chain yields one record: the innermost note under the path built from all titles. */
  lemma {:induction false} ChainYieldsPath(titles: seq<string>, note: string, parent: string)
    requires titles != [] && note != ""
    ensures Collect(Chain(titles, note), parent) == Some([Record(PathThrough(parent, titles), note)])
    decreases |titles|
  {
    var c := Chain(titles, note);
    var m := c.fields;
    var path := FullTitle(parent, titles[0]);
    var r := [Record(PathThrough(parent, titles), note)];
    assert PathThrough(path, titles[1..]) == PathThrough(parent, titles);
    assert c == JObj(m) && RootTopicKey !in m && TitleKey in m && Text(m[TitleKey]) == titles[0];
    var fromChildren :=
      if ChildrenKey in m && Truthy(m[ChildrenKey]) then CollectChildren(m[ChildrenKey], path)
      else Some([]);
    assert Collect(c, parent) == Concat(Some([]), Concat(OwnRecord(m, path), fromChildren));
    if |titles| == 1 {
      assert ResolveNote(m[NotesKey]) == Some(note);
      assert OwnRecord(m, path) == Some(r);
      assert ChildrenKey !in m;
      assert Concat(Some(r), Some([])) == Some(r) by { assert r + [] == r; }
    } else {
      var child := Chain(titles[1..], note);
      ChainYieldsPath(titles[1..], note, path);
      assert NotesKey !in m;
      var children := m[ChildrenKey];
      assert children == JObj(map[AttachedKey := JArr([child])]);
      assert AttachedKey in children.fields && Truthy(children);
      assert Collect(child, path) == Some(r);
      assert CollectList([child], path) == Concat(Collect(child, path), Some([]));
      assert Concat(Some(r), Some([])) == Some(r) by { assert r + [] == r; }
      assert CollectChildren(children, path) == CollectList([child], path);
      assert fromChildren == CollectChildren(children, path);
      assert OwnRecord(m, path) == Some([]);
      assert Concat(Some([]), Some(r)) == Some(r) by { assert [] + r == r; }
    }
    assert Concat(Some([]), Some(r)) == Some(r) by { assert [] + r == r; }
  }
}
