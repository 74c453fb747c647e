/**
 * Parsed JSON values and the slice of JavaScript semantics the atlas
 * pipeline uses on them: property presence (`key in v`), property access,
 * `typeof` / `Array.isArray` / `Number.isInteger`, `Object.keys` with the
 * values it indexes, and conversion to text (`String(v)`, template literals,
 * `Array.prototype.join`).
 *
 * A JSON number is either an integer (`Int`) or a number for which
 * `Number.isInteger` is false (`Frac`); the latter is carried by the text
 * JavaScript prints for it, which is all the pipeline ever does with it.
 * Objects keep their members in `Object.keys` order; JSON.parse never
 * yields two members with the same key.
 */
module JsonValue {
  import opened Results
  import opened Text

  datatype Json =
    | Null
    | Bool(b: bool)
    | Int(i: int)
    | Frac(text: string)
    | Str(s: string)
    | Arr(items: seq<Json>)
    | Obj(members: seq<(string, Json)>)

  /** The value of member `key`, or None (JavaScript's undefined) when there is none. */
  function Lookup(members: seq<(string, Json)>, key: string): Option<Json> {
    if |members| == 0 then None
    else if members[0].0 == key then Some(members[0].1)
    else Lookup(members[1..], key)
  }

  /** A lookup finds the value of the first member with that key, and nothing when no member has it. */
  lemma {:induction false} LookupFindsFirst(members: seq<(string, Json)>, key: string)
    ensures Lookup(members, key).None? <==> forall i :: 0 <= i < |members| ==> members[i].0 != key
    ensures Lookup(members, key).Some? ==>
              exists i :: 0 <= i < |members| && members[i] == (key, Lookup(members, key).value) &&
                          forall j :: 0 <= j < i ==> members[j].0 != key
  {
    if |members| > 0 && members[0].0 != key {
      LookupFindsFirst(members[1..], key);
      assert forall i :: 1 <= i < |members| ==> members[i] == members[1..][i - 1];
      if Lookup(members, key).Some? {
        var i :| 0 <= i < |members[1..]| && members[1..][i] == (key, Lookup(members, key).value) &&
                 forall j :: 0 <= j < i ==> members[1..][j].0 != key;
        assert members[i + 1] == members[1..][i];
      }
    }
  }

  /** `v[key]` on a value known to be readable: objects answer from their members, every other value has no such own property. */
  function Field(v: Json, key: string): Option<Json> {
    if v.Obj? then Lookup(v.members, key) else None
  }

  /**
   * Whether `key in v` can be evaluated: the `in` operator throws a
   * TypeError unless its right operand is an object (arrays included).
   */
  predicate InOperand(v: Option<Json>) {
    v.Some? && (v.value.Obj? || v.value.Arr?)
  }

  /** `key in v` for a non-index key such as "path" or "x": only objects can have it. */
  predicate HasKey(v: Json, key: string) {
    v.Obj? && Lookup(v.members, key).Some?
  }

  /** Whether `v.key` can be read: reading a property of undefined or null throws a TypeError. */
  predicate Readable(v: Option<Json>) {
    v.Some? && !v.value.Null?
  }

  predicate IsString(v: Option<Json>) {
    v.Some? && v.value.Str?
  }

  predicate IsBoolean(v: Option<Json>) {
    v.Some? && v.value.Bool?
  }

  /** `Number.isInteger(v)`: false for every non-number and for every non-integral number. */
  predicate IsInteger(v: Option<Json>) {
    v.Some? && v.value.Int?
  }

  predicate IsArray(v: Option<Json>) {
    v.Some? && v.value.Arr?
  }

  /**
   * The pairs `(k, v[k])` for `k` in `Object.keys(v)`: members of an object,
   * indices of an array or of a string, nothing for numbers and booleans.
   * `Object.keys(null)` throws a TypeError (None here).
   */
  function Entries(v: Json): (r: Option<seq<(string, Json)>>)
    ensures r.None? <==> v.Null?
    ensures v.Obj? ==> r == Some(v.members)
    ensures v.Arr? ==> r.Some? && |r.value| == |v.items| &&
                       forall i :: 0 <= i < |v.items| ==> r.value[i] == (NatText(i), v.items[i])
    ensures v.Str? ==> r.Some? && |r.value| == |v.s| &&
                       forall i :: 0 <= i < |v.s| ==> r.value[i] == (NatText(i), Str([v.s[i]]))
    ensures v.Bool? || v.Int? || v.Frac? ==> r == Some([])
  {
    match v
    case Null => None
    case Obj(ms) => Some(ms)
    case Arr(items) => Some(seq(|items|, i requires 0 <= i < |items| => (NatText(i), items[i])))
    case Str(s) => Some(seq(|s|, i requires 0 <= i < |s| => (NatText(i), Str([s[i]]))))
    case _ => Some([])
  }

  /** `String(v)`: the text a template literal or string concatenation produces. */
  function ToText(v: Json): string {
    match v
    case Null => "null"
    case Bool(b) => if b then "true" else "false"
    case Int(i) => IntText(i)
    case Frac(t) => t
    case Str(s) => s
    case Arr(items) =>
      Join(seq(|items|, i requires 0 <= i < |items| => if items[i].Null? then "" else ToText(items[i])), ",")
    case Obj(_) => "[object Object]"
  }

  /** The texts `join` uses for array elements: null contributes the empty string, anything else its `String` text. */
  function ElementTexts(items: seq<Json>): (r: seq<string>)
    ensures |r| == |items|
    ensures forall i :: 0 <= i < |items| ==> r[i] == if items[i].Null? then "" else ToText(items[i])
  {
    if |items| == 0 then []
    else ElementTexts(items[..|items| - 1]) + [if items[|items| - 1].Null? then "" else ToText(items[|items| - 1])]
  }

  /** `items.join(sep)`. */
  function JoinJson(items: seq<Json>, sep: string): string {
    Join(ElementTexts(items), sep)
  }

  /** `${v}` for a value that may be undefined (None). */
  function TemplateText(v: Option<Json>): string {
    match v
    case None => "undefined"
    case Some(j) => ToText(j)
  }
}
