/**
 * The guard checks of the atlas pack pipeline: the header of the atlas
 * description (`CheckAtlasJsonStructure`), every group of it
 * (`CheckWholeAtlasJson`), and the presence of every member image
 * (`CheckWholeMemberIfExists`). Each check fails on the first problem, in a
 * fixed order, naming exactly one field or file.
 */
module AtlasValidation {
  import opened Results
  import opened Text
  import opened JsonValue
  import opened AtlasTypes

  // ---------------------------------------------------------------
  // The header
  // ---------------------------------------------------------------

  /** Whether one header field is acceptable. */
  predicate HeaderFieldOk(doc: Json, f: FieldName) {
    var v := Field(doc, f.Key());
    match f
    case Subgroup => IsString(v)
    case Method => IsString(v) && v.value.s in {"id", "path"}
    case Trim => IsBoolean(v)
    case Groups => v.Some?
    case ExpandPath => v.None? || (IsString(v) && v.value.s in {"array", "string"})
    case _ => true
  }

  /**
   * Checking order of the header: subgroup, method, trim, groups,
   * expand_path. Holds when every header field checked before `f` is
   * acceptable; false for a field that is not a header field.
   */
  predicate HeaderOkBefore(doc: Json, f: FieldName) {
    match f
    case Subgroup => true
    case Method => HeaderFieldOk(doc, Subgroup)
    case Trim => HeaderFieldOk(doc, Subgroup) && HeaderFieldOk(doc, Method)
    case Groups => HeaderFieldOk(doc, Subgroup) && HeaderFieldOk(doc, Method) && HeaderFieldOk(doc, Trim)
    case ExpandPath =>
      HeaderFieldOk(doc, Subgroup) && HeaderFieldOk(doc, Method) && HeaderFieldOk(doc, Trim) &&
      HeaderFieldOk(doc, Groups)
    case _ => false
  }

  /** An acceptable header: an object whose every header field is acceptable. */
  predicate HeaderValid(doc: Json) {
    doc.Obj? && HeaderOkBefore(doc, ExpandPath) && HeaderFieldOk(doc, ExpandPath)
  }

  /** The errors that name a field of the atlas description. */
  predicate FieldError(e: PackError) {
    e.MissingProperty? || e.WrongDataType? || e.RuntimeTypeError?
  }

  /**
   * `CheckAtlasJsonStructure`: subgroup present and a string; method present,
   * a string and "id" or "path"; trim present and a boolean; groups present;
   * expand_path, when present, a string and "array" or "string". A `key in
   * doc` on a value that is not an object throws a TypeError; an array has
   * none of these keys.
   */
  function CheckAtlasJsonStructure(doc: Json): (r: Outcome<PackError>)
    ensures r.Pass? <==> HeaderValid(doc)
    ensures r.Fail? ==> FieldError(r.error) && !HeaderFieldOk(doc, r.error.field) && HeaderOkBefore(doc, r.error.field)
    ensures r.Fail? && doc.Obj? ==> (r.error.MissingProperty? || r.error.WrongDataType?) &&
                                    (r.error.MissingProperty? <==> !HasKey(doc, r.error.field.Key()))
    ensures r.Fail? && !doc.Obj? ==> r.error == (if doc.Arr? then MissingProperty(Subgroup) else RuntimeTypeError(Subgroup))
  {
    if !InOperand(Some(doc)) then Fail(RuntimeTypeError(Subgroup))
    else if !HasKey(doc, "subgroup") then Fail(MissingProperty(Subgroup))
    else if !IsString(Field(doc, "subgroup")) then Fail(WrongDataType(Subgroup, StringType))
    else if !HasKey(doc, "method") then Fail(MissingProperty(Method))
    else if !IsString(Field(doc, "method")) then Fail(WrongDataType(Method, StringType))
    else if Field(doc, "method").value.s != "id" && Field(doc, "method").value.s != "path" then
      Fail(WrongDataType(Method, OneOf(["id", "path"])))
    else if !HasKey(doc, "trim") then Fail(MissingProperty(Trim))
    else if !IsBoolean(Field(doc, "trim")) then Fail(WrongDataType(Trim, BooleanType))
    else if !HasKey(doc, "groups") then Fail(MissingProperty(Groups))
    else if HasKey(doc, "expand_path") && !IsString(Field(doc, "expand_path")) then
      Fail(WrongDataType(ExpandPath, StringType))
    else if HasKey(doc, "expand_path") && Field(doc, "expand_path").value.s != "array" && Field(doc, "expand_path").value.s != "string" then
      Fail(WrongDataType(ExpandPath, OneOf(["array", "string"])))
    else Pass
  }

  // ---------------------------------------------------------------
  // The groups
  // ---------------------------------------------------------------

  /** `group.path` for the path; `group.default.<key>` for x, y and cols. */
  function GroupValue(group: Json, f: FieldName): Option<Json> {
    if f == PathField then Field(group, "path")
    else match Field(group, "default")
      case None => None
      case Some(d) => Field(d, f.Key())
  }

  /** Whether one field of a group is acceptable: an array path, integer x and y, an integer cols if any. */
  predicate GroupFieldOk(group: Json, f: FieldName) {
    var v := GroupValue(group, f);
    match f
    case PathField => IsArray(v)
    case X => IsInteger(v)
    case Y => IsInteger(v)
    case Cols => v.None? || IsInteger(v)
    case _ => true
  }

  /** Checking order of a group: path, x, y, cols; false for any other field. */
  predicate GroupOkBefore(group: Json, f: FieldName) {
    match f
    case PathField => true
    case X => GroupFieldOk(group, PathField)
    case Y => GroupFieldOk(group, PathField) && GroupFieldOk(group, X)
    case Cols => GroupFieldOk(group, PathField) && GroupFieldOk(group, X) && GroupFieldOk(group, Y)
    case _ => false
  }

  predicate GroupValid(group: Json) {
    GroupOkBefore(group, Cols) && GroupFieldOk(group, Cols)
  }

  /**
   * The error for a value that `Number.isInteger` rejects: the message
   * calls `toString()` on it, which throws a TypeError for null.
   */
  function NotInteger(f: FieldName, v: Json): PackError {
    if v.Null? then RuntimeTypeError(f) else WrongDataType(f, IntegerType)
  }

  /**
   * The checks of one group inside `CheckWholeAtlasJson`. A group that is
   * not an object (or array) makes `"path" in group` throw; a `default`
   * that is not one makes `"x" in default` throw.
   */
  function CheckGroup(group: Json): (r: Outcome<PackError>)
    ensures r.Pass? <==> GroupValid(group)
    ensures r.Fail? ==> FieldError(r.error) && !GroupFieldOk(group, r.error.field) && GroupOkBefore(group, r.error.field)
    ensures r.Fail? && r.error.MissingProperty? ==> GroupValue(group, r.error.field).None?
    ensures r.Fail? && r.error.WrongDataType? ==>
              GroupValue(group, r.error.field).Some? &&
              (r.error.field == PathField || !GroupValue(group, r.error.field).value.Null?) &&
              r.error.expected == (if r.error.field == PathField then ArrayType else IntegerType)
    ensures r.Fail? && r.error.RuntimeTypeError? ==>
              GroupValue(group, r.error.field).None? || GroupValue(group, r.error.field) == Some(Null)
  {
    if !InOperand(Some(group)) then Fail(RuntimeTypeError(PathField))
    else if !HasKey(group, "path") then Fail(MissingProperty(PathField))
    else if !IsArray(Field(group, "path")) then Fail(WrongDataType(PathField, ArrayType))
    else
      var def := Field(group, "default");
      if !InOperand(def) then Fail(RuntimeTypeError(X))
      else if !HasKey(def.value, "x") then Fail(MissingProperty(X))
      else if !IsInteger(Field(def.value, "x")) then Fail(NotInteger(X, Field(def.value, "x").value))
      else if !HasKey(def.value, "y") then Fail(MissingProperty(Y))
      else if !IsInteger(Field(def.value, "y")) then Fail(NotInteger(Y, Field(def.value, "y").value))
      else if HasKey(def.value, "cols") && !IsInteger(Field(def.value, "cols")) then
        Fail(NotInteger(Cols, Field(def.value, "cols").value))
      else Pass
  }

  /** `Object.keys(doc.groups)` with the groups they index; None when that throws (no groups, or null). */
  function GroupEntries(doc: Json): Option<seq<(string, Json)>> {
    match Field(doc, "groups")
    case None => None
    case Some(g) => Entries(g)
  }

  /** The groups checked in key order: the first failing group's error, or Pass. */
  function CheckEach(entries: seq<(string, Json)>): (r: Outcome<PackError>)
    ensures r.Pass? <==> forall i :: 0 <= i < |entries| ==> GroupValid(entries[i].1)
    ensures r.Fail? ==> exists i :: 0 <= i < |entries| && CheckGroup(entries[i].1) == r &&
                                    forall j :: 0 <= j < i ==> GroupValid(entries[j].1)
  {
    if |entries| == 0 then Pass
    else match CheckGroup(entries[0].1)
      case Fail(e) => Fail(e)
      case Pass =>
        var rest := CheckEach(entries[1..]);
        assert rest.Fail? ==> exists i :: 1 <= i < |entries| && CheckGroup(entries[i].1) == rest &&
                                          forall j :: 0 <= j < i ==> GroupValid(entries[j].1) by {
          if rest.Fail? {
            var i :| 0 <= i < |entries[1..]| && CheckGroup(entries[1..][i].1) == rest &&
                     forall j :: 0 <= j < i ==> GroupValid(entries[1..][j].1);
            assert forall j :: 0 <= j < i + 1 ==> GroupValid(entries[j].1) by {
              forall j | 0 <= j < i + 1 ensures GroupValid(entries[j].1) {
                if j > 0 { assert entries[j] == entries[1..][j - 1]; }
              }
            }
            assert CheckGroup(entries[i + 1].1) == rest;
          }
        }
        rest
  }

  /** What `CheckWholeAtlasJson` does with the whole atlas description. */
  function CheckGroups(doc: Json): (r: Outcome<PackError>)
    ensures r.Pass? <==> GroupEntries(doc).Some? && forall i :: 0 <= i < |GroupEntries(doc).value| ==> GroupValid(GroupEntries(doc).value[i].1)
    ensures GroupEntries(doc).None? ==> r == Fail(RuntimeTypeError(Groups))
  {
    match GroupEntries(doc)
    case None => Fail(RuntimeTypeError(Groups))
    case Some(es) => CheckEach(es)
  }

  /** `CheckWholeAtlasJson`: the loop over the groups in key order. */
  method CheckWholeAtlasJson(doc: Json) returns (r: Outcome<PackError>)
    ensures r == CheckGroups(doc)
  {
    var entries := GroupEntries(doc);
    if entries.None? {
      return Fail(RuntimeTypeError(Groups));
    }
    var es := entries.value;
    var i := 0;
    while i < |es|
      invariant 0 <= i <= |es|
      invariant CheckEach(es) == CheckEach(es[i..])
    {
      var outcome := CheckGroup(es[i].1);
      if outcome.Fail? {
        return outcome;
      }
      assert es[i..][1..] == es[i + 1..];
      i := i + 1;
    }
    return Pass;
  }

  // ---------------------------------------------------------------
  // The member images
  // ---------------------------------------------------------------

  /** The image file that must exist for a member: `<media>\<name>.png`. */
  function MemberFile(media: string, name: string): string {
    media + "\\" + name + ".png"
  }

  /** The members checked in order: the first one whose image is missing, or Pass. */
  function CheckMembers(media: string, names: seq<string>, fileExists: string -> bool): (r: Outcome<PackError>)
    ensures r.Pass? <==> forall i :: 0 <= i < |names| ==> fileExists(MemberFile(media, names[i]))
    ensures r.Fail? ==> exists i :: 0 <= i < |names| && r == Fail(MissingFile(MemberFile(media, names[i]))) &&
                                    !fileExists(MemberFile(media, names[i])) &&
                                    forall j :: 0 <= j < i ==> fileExists(MemberFile(media, names[j]))
  {
    if |names| == 0 then Pass
    else if !fileExists(MemberFile(media, names[0])) then Fail(MissingFile(MemberFile(media, names[0])))
    else
      var rest := CheckMembers(media, names[1..], fileExists);
      assert rest.Fail? ==> exists i :: 1 <= i < |names| && rest == Fail(MissingFile(MemberFile(media, names[i]))) &&
                                        !fileExists(MemberFile(media, names[i])) &&
                                        forall j :: 0 <= j < i ==> fileExists(MemberFile(media, names[j])) by {
        if rest.Fail? {
          var i :| 0 <= i < |names[1..]| && rest == Fail(MissingFile(MemberFile(media, names[1..][i]))) &&
                   !fileExists(MemberFile(media, names[1..][i])) &&
                   forall j :: 0 <= j < i ==> fileExists(MemberFile(media, names[1..][j]));
          assert forall j :: 0 <= j < i + 1 ==> fileExists(MemberFile(media, names[j])) by {
            forall j | 0 <= j < i + 1 ensures fileExists(MemberFile(media, names[j])) {
              if j > 0 { assert names[j] == names[1..][j - 1]; }
            }
          }
          assert names[i + 1] == names[1..][i];
        }
      }
      rest
  }

  /** `CheckWholeMemberIfExists`: the loop over the image names, with the file probe as a parameter. */
  method CheckWholeMemberIfExists(media: string, names: seq<string>, fileExists: string -> bool)
    returns (r: Outcome<PackError>)
    ensures r == CheckMembers(media, names, fileExists)
  {
    var i := 0;
    while i < |names|
      invariant 0 <= i <= |names|
      invariant CheckMembers(media, names, fileExists) == CheckMembers(media, names[i..], fileExists)
    {
      var file := MemberFile(media, names[i]);
      if !fileExists(file) {
        return Fail(MissingFile(file));
      }
      assert names[i..][1..] == names[i + 1..];
      i := i + 1;
    }
    return Pass;
  }
}
