/** Decoded JSON values, and the few Python operations the extractor applies to them:
    truthiness, the `in` operator and subscripting with a string key. */
module PyJson {

  datatype Option<T> = None | Some(value: T)

  /** A value produced by Python's json decoder. Only the truthiness of a number
      matters to the extractor, so every number is kept as a `real`. */
  datatype Json =
    | JObj(fields: map<string, Json>)
    | JArr(items: seq<Json>)
    | JStr(str: string)
    | JNull
    | JBool(b: bool)
    | JNum(n: real)

  /** Python truthiness: empty containers, the empty string, None, False and zero are false. */
  predicate Truthy(v: Json)
    ensures Truthy(v) <==> v !in {JObj(map[]), JArr([]), JStr(""), JNull, JBool(false), JNum(0.0)}
  {
    match v
    case JObj(m) => m != map[]
    case JArr(xs) => xs != []
    case JStr(s) => s != ""
    case JNull => false
    case JBool(b) => b
    case JNum(n) => n != 0.0
  }

  /** Python's `needle in hay` on two strings: substring search. */
  function IsInfix(needle: string, hay: string): bool
    decreases |hay|
  {
    needle <= hay || (hay != [] && IsInfix(needle, hay[1..]))
  }

  /** `needle` occurs in `hay` starting at index `i`. */
  predicate OccursAt(needle: string, hay: string, i: nat) {
    i + |needle| <= |hay| && hay[i..i + |needle|] == needle
  }

  /** The substring search finds exactly the positions where `needle` occurs. */
  lemma IsInfixIff(needle: string, hay: string)
    ensures IsInfix(needle, hay) <==> exists i: nat :: OccursAt(needle, hay, i)
  {
    if IsInfix(needle, hay) {
      var i := InfixPosition(needle, hay);
    }
    if i: nat :| OccursAt(needle, hay, i) {
      OccurrenceIsInfix(needle, hay, i);
    }
  }

  lemma {:induction false} InfixPosition(needle: string, hay: string) returns (i: nat)
    requires IsInfix(needle, hay)
    ensures OccursAt(needle, hay, i)
    decreases |hay|
  {
    if needle <= hay {
      i := 0;
      assert hay[..|needle|] == needle;
    } else {
      var j := InfixPosition(needle, hay[1..]);
      assert hay[1..][j..j + |needle|] == hay[j + 1..j + 1 + |needle|];
      i := j + 1;
    }
  }

  lemma {:induction false} OccurrenceIsInfix(needle: string, hay: string, i: nat)
    requires OccursAt(needle, hay, i)
    ensures IsInfix(needle, hay)
    decreases i
  {
    if i == 0 {
      assert hay[..|needle|] == needle;
    } else {
      assert hay[1..][i - 1..i - 1 + |needle|] == hay[i..i + |needle|];
      OccurrenceIsInfix(needle, hay[1..], i - 1);
    }
  }

  /** Outcome of the Python guard `key in v` followed, when it holds, by `v[key]`. */
  datatype Probe = Raises | Missing | Present(value: Json)

  /** `key in v and v[key]` for a string key. On a list the guard compares the key with
      each element and the subscript then raises; on a string the guard is a substring
      search and the subscript then raises; None, booleans and numbers are not containers,
      so the guard itself raises. */
  function Member(v: Json, key: string): (p: Probe)
    ensures p.Present? <==> v.JObj? && key in v.fields
    ensures p.Present? ==> p.value == v.fields[key]
    ensures p.Raises? <==>
      || (v.JArr? && JStr(key) in v.items)
      || (v.JStr? && exists i: nat :: OccursAt(key, v.str, i))
      || v.JNull? || v.JBool? || v.JNum?
  {
    match v
    case JObj(m) => if key in m then Present(m[key]) else Missing
    case JArr(xs) => if JStr(key) in xs then Raises else Missing
    case JStr(s) => IsInfixIff(key, s); if IsInfix(key, s) then Raises else Missing
    case _ => Raises
  }

  /** The text of a string value; any other value gives `""`, and callers pass only
      falsy non-strings, whose Python value is falsy like `""`. */
  function Text(v: Json): string {
    if v.JStr? then v.str else ""
  }
}
