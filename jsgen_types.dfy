/**
 * The records jsgen builds while reading an annotated C header (Field,
 * Model), and its pure classifiers: the JSON kind a C type decodes from
 * (get_jsp_type), the jsb writer that encodes it (get_jsb_type), the key a
 * field is written under (js_getalias) and the six model markers
 * (is_json_initializer).  Names are unbounded strings; the fixed 128-byte
 * buffers of the C records are not modelled.
 */
module JsGenTypes {
  import opened Wrappers

  /** One member of an annotated struct. */
  datatype Field = Field(
    name: string,
    alias: string,
    hasAlias: bool,
    typeText: string,
    simpleType: string,
    isPointer: bool,
    isArray: bool,
    hasCounter: bool,
    counterField: string,
    isCounterField: bool,
    isJsonLiteral: bool)

  /** `Field field = {0};`: empty strings and cleared flags. */
  const EmptyField: Field := Field("", "", false, "", "", false, false, false, "", false, false)

  /** One annotated struct: its C name, the name used in generated identifiers, what to generate, its fields. */
  datatype Model = Model(name: string, simpleName: string, stringify: bool, parse: bool, fields: seq<Field>)

  /** `(Model){0}`. */
  const EmptyModel: Model := Model("", "", false, false, [])

  /** The leaf type names that hold JSON numbers. */
  const NumberTypes: set<string> := {"int", "float", "double", "long", "size_t"}

  /** get_jsp_type: the jsp value kind a C type decodes from; a trailing '*' is stripped and the rest classified again. */
  function JspType(t: string): (r: Option<string>)
    ensures r.Some? ==> r.value in {"number", "boolean", "string"}
    decreases |t|
  {
    if t in NumberTypes then Some("number")
    else if t == "bool" then Some("boolean")
    else if t == "char*" then Some("string")
    else if |t| > 1 && t[|t| - 1] == '*' then JspType(t[..|t| - 1])
    else None
  }

  /** get_jsb_type: the jsb writer (jsb_int, jsb_number, ...) that encodes a C type; same shape as JspType. */
  function JsbType(t: string): (r: Option<string>)
    ensures r.Some? ==> r.value in {"int", "number", "bool", "string"}
    decreases |t|
  {
    if t == "int" || t == "long" || t == "size_t" then Some("int")
    else if t == "float" || t == "double" then Some("number")
    else if t == "bool" then Some("bool")
    else if t == "char*" then Some("string")
    else if |t| > 1 && t[|t| - 1] == '*' then JsbType(t[..|t| - 1])
    else None
  }

  /** The type text without any of its trailing '*'. */
  function Unstarred(t: string): (r: string)
    ensures |r| <= |t| && r == t[..|r|]
    ensures r == [] || r[|r| - 1] != '*'
    ensures forall i :: |r| <= i < |t| ==> t[i] == '*'
    decreases |t|
  {
    if |t| > 0 && t[|t| - 1] == '*' then Unstarred(t[..|t| - 1]) else t
  }

  /**
   * The classification stated on the leaf name and the number of stars:
   * the number names, bool, and char behind at least one star; any number
   * of further stars is ignored.
   */
  function JspByLeaf(t: string): (r: Option<string>)
  {
    var leaf := Unstarred(t);
    if leaf in NumberTypes then Some("number")
    else if leaf == "bool" then Some("boolean")
    else if leaf == "char" && |leaf| < |t| then Some("string")
    else None
  }

  /** The same for the encoding side. */
  function JsbByLeaf(t: string): (r: Option<string>)
  {
    var leaf := Unstarred(t);
    if leaf in {"int", "long", "size_t"} then Some("int")
    else if leaf in {"float", "double"} then Some("number")
    else if leaf == "bool" then Some("bool")
    else if leaf == "char" && |leaf| < |t| then Some("string")
    else None
  }

  /** A name that does not end in '*' is its own leaf. */
  lemma UnstarredPlain(t: string)
    requires t == [] || t[|t| - 1] != '*'
    ensures Unstarred(t) == t
  {
  }

  /** "char*" has the leaf "char" behind one star. */
  lemma UnstarredCharPointer()
    ensures Unstarred("char*") == "char"
  {
    assert "char*"[..4] == "char";
    UnstarredPlain("char");
  }

  /** Stripping one star at a time, as get_jsp_type does, classifies by the leaf name. */
  lemma {:induction false} JspTypeByLeaf(t: string)
    ensures JspType(t) == JspByLeaf(t)
    decreases |t|
  {
    if t == "char*" {
      UnstarredCharPointer();
    } else if t in NumberTypes || t == "bool" {
      UnstarredPlain(t);
    } else if |t| > 1 && t[|t| - 1] == '*' {
      JspTypeByLeaf(t[..|t| - 1]);
    } else if |t| == 1 && t[0] == '*' {
      assert Unstarred(t[..0]) == [];
    }
  }

  /** The same for get_jsb_type. */
  lemma {:induction false} JsbTypeByLeaf(t: string)
    ensures JsbType(t) == JsbByLeaf(t)
    decreases |t|
  {
    if t == "char*" {
      UnstarredCharPointer();
    } else if t in {"int", "long", "size_t", "float", "double", "bool"} {
      UnstarredPlain(t);
    } else if |t| > 1 && t[|t| - 1] == '*' {
      JsbTypeByLeaf(t[..|t| - 1]);
    } else if |t| == 1 && t[0] == '*' {
      assert Unstarred(t[..0]) == [];
    }
  }

  /**
   * The two tables classify the same types: what decodes as a number is
   * written with jsb_int or jsb_number, a boolean with jsb_bool, a string
   * with jsb_string, and a type one table does not know the other does not
   * know either.
   */
  lemma TablesAgree(t: string)
    ensures JspType(t).None? <==> JsbType(t).None?
    ensures JspType(t) == Some("number") <==> JsbType(t) in {Some("int"), Some("number")}
    ensures JspType(t) == Some("boolean") <==> JsbType(t) == Some("bool")
    ensures JspType(t) == Some("string") <==> JsbType(t) == Some("string")
  {
    JspTypeByLeaf(t);
    JsbTypeByLeaf(t);
  }

  /** The leaf names, one pointer level, and what stays unknown. */
  lemma TypeTableExamples()
    ensures JspType("int") == Some("number") && JsbType("int") == Some("int")
    ensures JspType("double") == Some("number") && JsbType("double") == Some("number")
    ensures JspType("size_t") == Some("number") && JsbType("size_t") == Some("int")
    ensures JspType("bool") == Some("boolean") && JsbType("bool") == Some("bool")
    ensures JspType("char*") == Some("string") && JsbType("char*") == Some("string")
    ensures JspType("float*") == Some("number") && JsbType("float*") == Some("number")
    ensures JspType("char") == None && JsbType("char") == None
    ensures JspType("struct Point") == None && JsbType("Point*") == None
    ensures JspType("*") == None
  {
    assert "float*"[..5] == "float";
    assert "Point*"[..5] == "Point";
  }

  /**
   * js_getalias: the key a field is read and written under.  Where that key
   * ends up in the generated code is stated by the emitter's KeyPlaced and
   * DispatchClauses lemmas.
   */
  function KeyName(f: Field): (r: string)
    ensures f.hasAlias ==> r == f.alias
    ensures !f.hasAlias ==> r == f.name
  {
    if f.hasAlias then f.alias else f.name
  }

  /** The six identifiers that start a model. */
  const Markers: set<string> := {"JSON", "JSGEN_JSON", "JSONP", "JSGEN_JSONP", "JSONS", "JSGEN_JSONS"}

  /** is_json_initializer. */
  function IsMarker(s: string): (r: bool)
    ensures r <==> s in Markers
  {
    s == "JSON" || s == "JSGEN_JSON" || s == "JSONS" || s == "JSGEN_JSONS" || s == "JSONP" || s == "JSGEN_JSONP"
  }

  /**
   * Whether a marker asks for parse routines: all but JSONS and JSGEN_JSONS.
   * The parser's HandleId stores it on the model; MarkerKinds relates the two.
   */
  function MarkerParses(s: string): (r: bool)
    requires IsMarker(s)
    ensures r <==> s !in {"JSONS", "JSGEN_JSONS"}
  {
    !(s == "JSONS" || s == "JSGEN_JSONS")
  }

  /**
   * Whether a marker asks for stringify routines: all but JSONP and JSGEN_JSONP.
   * The parser's HandleId stores it on the model; MarkerKinds relates the two.
   */
  function MarkerStringifies(s: string): (r: bool)
    requires IsMarker(s)
    ensures r <==> s !in {"JSONP", "JSGEN_JSONP"}
  {
    !(s == "JSONP" || s == "JSGEN_JSONP")
  }

  /** Each marker asks for at least one kind of routine, and only JSON and JSGEN_JSON ask for both. */
  lemma MarkerKinds(s: string)
    ensures IsMarker(s) ==> MarkerParses(s) || MarkerStringifies(s)
    ensures IsMarker(s) ==> (MarkerParses(s) && MarkerStringifies(s) <==> s in {"JSON", "JSGEN_JSON"})
  {
  }
}
