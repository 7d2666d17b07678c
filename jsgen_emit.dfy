/**
 * The code emitter of jsgen: for each model it appends the C source of the
 * parse and stringify routines to a string builder.
 *
 * Every line is written by one sb_cat_line call: 4*indent spaces, the text
 * and a newline.  A line is described here by its depth and a `Code` value
 * naming the call that writes it, with the field and model names the call
 * splices in as parameters; `CodeText` gives the characters of each one.
 * The emitters are functions from a field or a model to its lines, and the
 * methods append the rendering of those lines to a builder, as the C does.
 */
module JsGenEmitter {
  import opened Wrappers
  import opened JsGenTypes
  import JsbSpec

  /** Which sb_cat_line call shape a line is. */
  newtype Op = x: int | 0 <= x < 128

  /** A line's call shape and the names spliced into it, in order. */
  datatype Code = Code(op: Op, args: seq<string>)

  /** The i-th spliced-in name of a line, or nothing. */
  function Arg(c: Code, i: nat): string
  {
    if i < |c.args| then c.args[i] else ""
  }

  // One constant or constructor function per call shape; KeyTest and
  // FallThrough have one shape for the first test and one for the later ones.
  // gen_parse_field_body: scalars and strings
  const JspValue: Code := Code(0, [])
  const ReturnIfErr: Code := Code(1, [])
  function StoreScalar(name: string, kind: string): Code { Code(2, [name, kind]) }
  const LiteralStart: Code := Code(3, [])
  const LiteralDepth: Code := Code(4, [])
  const LiteralOpener: Code := Code(5, [])
  const LiteralCloser: Code := Code(6, [])
  const LiteralScan: Code := Code(7, [])
  const LiteralEscape: Code := Code(8, [])
  const LiteralNest: Code := Code(9, [])
  const LiteralUnnest: Code := Code(10, [])
  const LiteralAdvance: Code := Code(11, [])
  const LiteralLength: Code := Code(12, [])
  function LiteralAlloc(name: string): Code { Code(13, [name]) }
  function LiteralCopy(name: string): Code { Code(14, [name]) }
  function LiteralTerminate(name: string): Code { Code(15, [name]) }
  const SkipEnd: Code := Code(16, [])
  const StringLength: Code := Code(17, [])
  function StoreLength(counter: string): Code { Code(18, [counter]) }
  const IfLength: Code := Code(19, [])
  function StringAlloc(name: string): Code { Code(20, [name]) }
  function StringCopy(name: string): Code { Code(21, [name]) }
  function SetNull(name: string): Code { Code(22, [name]) }
  function StringCopyBounded(name: string): Code { Code(23, [name]) }
  // gen_parse_field_body: arrays, pointers, nested structs
  const BeginArray: Code := Code(24, [])
  const ArrayLength: Code := Code(25, [])
  function StoreCount(counter: string): Code { Code(26, [counter]) }
  function ArrayAlloc(name: string, elem: string): Code { Code(27, [name, elem]) }
  const CountedLoop: Code := Code(28, [])
  const IndexStart: Code := Code(29, [])
  const UncountedLoop: Code := Code(30, [])
  const BreakIfErr: Code := Code(31, [])
  function StoreElement(name: string, kind: string): Code { Code(32, [name, kind]) }
  function ParseElement(elem: string, name: string): Code { Code(33, [elem, name]) }
  const NextIndex: Code := Code(34, [])
  const EndArray: Code := Code(35, [])
  const IfNullValue: Code := Code(36, [])
  function NestedAlloc(name: string, elem: string): Code { Code(37, [name, elem]) }
  function ParseNested(elem: string, name: string): Code { Code(38, [elem, name]) }
  function ParseInPlace(elem: string, name: string): Code { Code(39, [elem, name]) }
  // gen_stringify_field
  function IfPresent(name: string): Code { Code(40, [name]) }
  function WriteKey(key: string): Code { Code(41, [key]) }
  function LiteralSize(name: string): Code { Code(42, [name]) }
  const IfLiteral: Code := Code(43, [])
  const LiteralReserve: Code := Code(44, [])
  function LiteralAppend(name: string): Code { Code(45, [name]) }
  const LiteralGrow: Code := Code(46, [])
  const LiteralEnd: Code := Code(47, [])
  const LiteralNotFirst: Code := Code(48, [])
  const LiteralNotKey: Code := Code(49, [])
  const ElseNull: Code := Code(50, [])
  function WriteScalar(kind: string, name: string, extra: string): Code { Code(51, [kind, name, extra]) }
  const BeginArrayOut: Code := Code(52, [])
  function CountLoop(counter: string): Code { Code(53, [counter]) }
  function WriteElement(kind: string, name: string): Code { Code(54, [kind, name]) }
  function StringifyElement(elem: string, name: string): Code { Code(55, [elem, name]) }
  const EndArrayOut: Code := Code(56, [])
  function NullIfAbsent(name: string): Code { Code(57, [name]) }
  function StringifyPointee(elem: string, name: string): Code { Code(58, [elem, name]) }
  function StringifyInPlace(elem: string, name: string): Code { Code(59, [elem, name]) }
  // generate_model_code: the parse routines
  function ParseObjectHeader(simple: string, model: string): Code { Code(60, [simple, model]) }
  const MarkUnused: Code := Code(61, [])
  const BeginObject: Code := Code(62, [])
  const KeyLoop: Code := Code(63, [])
  function KeyTest(later: bool, key: string): Code { Code(if later then 65 else 64, [key]) }
  function FallThrough(later: bool): Code { Code(if later then 67 else 66, []) }
  const SkipValue: Code := Code(68, [])
  const EndObject: Code := Code(69, [])
  const ReturnErr: Code := Code(70, [])
  function ParseHeader(simple: string, model: string): Code { Code(71, [simple, model]) }
  const JspLocal: Code := Code(72, [])
  const JspInit: Code := Code(73, [])
  function ParseRoot(simple: string): Code { Code(74, [simple]) }
  const JspFree: Code := Code(75, [])
  function ParseListObjectHeader(simple: string, model: string): Code { Code(76, [simple, model]) }
  const BeginList: Code := Code(77, [])
  const StoreListCount: Code := Code(78, [])
  function ListAlloc(model: string): Code { Code(79, [model]) }
  function ParseItem(simple: string): Code { Code(80, [simple]) }
  const ResetOnErr: Code := Code(81, [])
  function ParseListHeader(simple: string, model: string): Code { Code(82, [simple, model]) }
  function ParseListRoot(simple: string): Code { Code(83, [simple]) }
  // generate_model_code: the stringify routines
  function StringifyObjectHeader(simple: string, model: string): Code { Code(84, [simple, model]) }
  const BeginObjectOut: Code := Code(85, [])
  const OpenBlock: Code := Code(86, [])
  const EndObjectOut: Code := Code(87, [])
  function StringifyHeader(simple: string, model: string): Code { Code(88, [simple, model]) }
  const JsbLocal: Code := Code(89, [])
  function IfStringifyFails(simple: string): Code { Code(90, [simple]) }
  const JsbFree: Code := Code(91, [])
  const ReturnNull: Code := Code(92, [])
  const ReturnText: Code := Code(93, [])
  function StringifyMacro(simple: string): Code { Code(94, [simple]) }
  function StringifyListHeader(simple: string, model: string): Code { Code(95, [simple, model]) }
  const BeginListOut: Code := Code(96, [])
  const ItemLoop: Code := Code(97, [])
  function StringifyItem(simple: string): Code { Code(98, [simple]) }
  const EndListOut: Code := Code(99, [])
  function StringifyListMacro(simple: string): Code { Code(100, [simple]) }
  // shared
  const Close: Code := Code(101, [])
  const ElseOpen: Code := Code(102, [])
  const Blank: Code := Code(103, [])

  /** The test of one key in the key loop of `_parse_<simple>`. */
  function KeyCompare(key: string): string
  {
    "if (strcmp(jsp->string, \"" + key + "\") == 0) {"
  }

  /** The characters of each line, without indentation and newline. */
  function CodeText(c: Code): string
  {
    match c.op
    case 0 => // JspValue
      "err = jsp_value(jsp);"
    case 1 => // ReturnIfErr
      "if (err) return err;"
    case 2 => // StoreScalar
      var name, kind := Arg(c, 0), Arg(c, 1); "out->" + name + " = jsp->" + kind + ";"
    case 3 => // LiteralStart
      "size_t start = jsp->off - 1;"
    case 4 => // LiteralDepth
      "int brace_count = 1;"
    case 5 => // LiteralOpener
      "char ob = (jsp->type == JSP_TYPE_OBJECT ? '{' : '[');"
    case 6 => // LiteralCloser
      "char cb = (jsp->type == JSP_TYPE_OBJECT ? '}' : ']');"
    case 7 => // LiteralScan
      "while (jsp->off < jsp->length && brace_count > 0) {"
    case 8 => // LiteralEscape
      "if (jsp->buffer[jsp->off] == '\\\\') jsp->off++;"
    case 9 => // LiteralNest
      "else if (jsp->buffer[jsp->off] == ob) brace_count++;"
    case 10 => // LiteralUnnest
      "else if (jsp->buffer[jsp->off] == cb) brace_count--;"
    case 11 => // LiteralAdvance
      "jsp->off++;"
    case 12 => // LiteralLength
      "size_t fldlen = jsp->off - start;"
    case 13 => // LiteralAlloc
      var name := Arg(c, 0); "out->" + name + " = jsgen_malloc(a, fldlen + 1);"
    case 14 => // LiteralCopy
      var name := Arg(c, 0); "memcpy(out->" + name + ", &jsp->buffer[start], fldlen);"
    case 15 => // LiteralTerminate
      var name := Arg(c, 0); "out->" + name + "[fldlen] = '\\0';"
    case 16 => // SkipEnd
      "jsp_skip_end(jsp);"
    case 17 => // StringLength
      "size_t s_len = jsp->string ? strlen(jsp->string) : 0;"
    case 18 => // StoreLength
      var counter := Arg(c, 0); "out->" + counter + " = s_len;"
    case 19 => // IfLength
      "if(s_len > 0) {"
    case 20 => // StringAlloc
      var name := Arg(c, 0); "out->" + name + " = jsgen_malloc(a, s_len + 1);"
    case 21 => // StringCopy
      var name := Arg(c, 0); "strcpy(out->" + name + ", jsp->string);"
    case 22 => // SetNull
      var name := Arg(c, 0); "out->" + name + " = NULL;"
    case 23 => // StringCopyBounded
      var name := Arg(c, 0); "if(jsp->string) strncpy(out->" + name + ", jsp->string, sizeof(out->" + name + ") - 1);"
    case 24 => // BeginArray
      "err = jsp_begin_array(jsp);"
    case 25 => // ArrayLength
      "size_t len = jsp_array_length(jsp);"
    case 26 => // StoreCount
      var counter := Arg(c, 0); "out->" + counter + " = len;"
    case 27 => // ArrayAlloc
      var name, elem := Arg(c, 0), Arg(c, 1); "out->" + name + " = jsgen_malloc(a, sizeof(" + elem + ") * len);"
    case 28 => // CountedLoop
      "for (size_t i = 0; i < len; i++) {"
    case 29 => // IndexStart
      "size_t i = 0;"
    case 30 => // UncountedLoop
      "while(jsp->offset < jsp->length && jsp->content[jsp->offset] != ']') {"
    case 31 => // BreakIfErr
      "if (err) break;"
    case 32 => // StoreElement
      var name, kind := Arg(c, 0), Arg(c, 1); "out->" + name + "[i] = jsp->" + kind + ";"
    case 33 => // ParseElement
      var elem, name := Arg(c, 0), Arg(c, 1); "err = _parse_" + elem + "(jsp, &out->" + name + "[i], a);"
    case 34 => // NextIndex
      "i++;"
    case 35 => // EndArray
      "err = jsp_end_array(jsp);"
    case 36 => // IfNullValue
      "if (!err && jsp->type == JSP_TYPE_NULL) {"
    case 37 => // NestedAlloc
      var name, elem := Arg(c, 0), Arg(c, 1); "out->" + name + " = jsgen_malloc(a, sizeof(" + elem + "));"
    case 38 => // ParseNested
      var elem, name := Arg(c, 0), Arg(c, 1); "err = _parse_" + elem + "(jsp, out->" + name + ", a);"
    case 39 => // ParseInPlace
      var elem, name := Arg(c, 0), Arg(c, 1); "err = _parse_" + elem + "(jsp, &out->" + name + ", a);"
    case 40 => // IfPresent
      var name := Arg(c, 0); "if (in->" + name + " != NULL) {"
    case 41 => // WriteKey
      var key := Arg(c, 0); "if (jsb_key(jsb, \"" + key + "\")) return -1;"
    case 42 => // LiteralSize
      var name := Arg(c, 0); "size_t plen = in->" + name + " ? strlen(in->" + name + ") : 0;"
    case 43 => // IfLiteral
      "if (plen > 0) {"
    case 44 => // LiteralReserve
      "jsb_srealloc(&jsb->buffer, jsb->buffer.length + plen + 1);"
    case 45 => // LiteralAppend
      var name := Arg(c, 0); "memcpy(jsb->buffer.data + jsb->buffer.length, in->" + name + ", plen);"
    case 46 => // LiteralGrow
      "jsb->buffer.length += plen;"
    case 47 => // LiteralEnd
      "jsb->buffer.data[jsb->buffer.length] = '\\0';"
    case 48 => // LiteralNotFirst
      "jsb->is_first = false;"
    case 49 => // LiteralNotKey
      "jsb->is_key = false;"
    case 50 => // ElseNull
      "} else jsb_null(jsb);"
    case 51 => // WriteScalar
      var kind, name, extra := Arg(c, 0), Arg(c, 1), Arg(c, 2); "if (jsb_" + kind + "(jsb, in->" + name + extra + ")) return -1;"
    case 52 => // BeginArrayOut
      "if (jsb_begin_array(jsb)) return -1;"
    case 53 => // CountLoop
      var counter := Arg(c, 0); "for (size_t i = 0; i < (size_t)in->" + counter + "; ++i) {"
    case 54 => // WriteElement
      var kind, name := Arg(c, 0), Arg(c, 1); "if (jsb_" + kind + "(jsb, in->" + name + "[i])) return -1;"
    case 55 => // StringifyElement
      var elem, name := Arg(c, 0), Arg(c, 1); "if (_stringify_" + elem + "(jsb, &in->" + name + "[i])) return -1;"
    case 56 => // EndArrayOut
      "if (jsb_end_array(jsb)) return -1;"
    case 57 => // NullIfAbsent
      var name := Arg(c, 0); "if (in->" + name + " == NULL) jsb_null(jsb);"
    case 58 => // StringifyPointee
      var elem, name := Arg(c, 0), Arg(c, 1); "else if (_stringify_" + elem + "(jsb, in->" + name + ")) return -1;"
    case 59 => // StringifyInPlace
      var elem, name := Arg(c, 0), Arg(c, 1); "if (_stringify_" + elem + "(jsb, &in->" + name + ")) return -1;"
    case 60 => // ParseObjectHeader
      var simple, model := Arg(c, 0), Arg(c, 1); "int _parse_" + simple + "(Jsp *jsp, " + model + " *out, JsGenAllocator *a) {"
    case 61 => // MarkUnused
      "(void)a;"
    case 62 => // BeginObject
      "int err = jsp_begin_object(jsp);"
    case 63 => // KeyLoop
      "while (jsp_key(jsp) == 0) {"
    case 64 => // KeyTest, first
      KeyCompare(Arg(c, 0))
    case 65 => // KeyTest, later
      "} else " + KeyCompare(Arg(c, 0))
    case 66 => // FallThrough
      "{"
    case 67 => // FallThrough
      "} else {"
    case 68 => // SkipValue
      "err = jsp_skip(jsp);"
    case 69 => // EndObject
      "err = jsp_end_object(jsp);"
    case 70 => // ReturnErr
      "return err;"
    case 71 => // ParseHeader
      var simple, model := Arg(c, 0), Arg(c, 1); "int parse_" + simple + "(const char *json, " + model + " *out, JsGenAllocator *a) {"
    case 72 => // JspLocal
      "Jsp jsp = {0};"
    case 73 => // JspInit
      "int err = jsp_init(&jsp, json, strlen(json));"
    case 74 => // ParseRoot
      var simple := Arg(c, 0); "err = _parse_" + simple + "(&jsp, out, a);"
    case 75 => // JspFree
      "jsp_free(&jsp);"
    case 76 => // ParseListObjectHeader
      var simple, model := Arg(c, 0), Arg(c, 1); 
      "int _parse_" + simple + "_list(Jsp *jsp, " + model + " **out, size_t *out_count, JsGenAllocator *a) {"
    case 77 => // BeginList
      "int err = jsp_begin_array(jsp);"
    case 78 => // StoreListCount
      "*out_count = len;"
    case 79 => // ListAlloc
      var model := Arg(c, 0); "*out = jsgen_malloc(a, sizeof(" + model + ") * len);"
    case 80 => // ParseItem
      var simple := Arg(c, 0); "err = _parse_" + simple + "(jsp, &(*out)[i], a);"
    case 81 => // ResetOnErr
      "if (err) { *out = NULL; *out_count = 0; }"
    case 82 => // ParseListHeader
      var simple, model := Arg(c, 0), Arg(c, 1); 
      "int parse_" + simple + "_list(const char *json, " + model + " **out, size_t *out_count, JsGenAllocator *a) {"
    case 83 => // ParseListRoot
      var simple := Arg(c, 0); "err = _parse_" + simple + "_list(&jsp, out, out_count, a);"
    case 84 => // StringifyObjectHeader
      var simple, model := Arg(c, 0), Arg(c, 1); "int _stringify_" + simple + "(Jsb *jsb, " + model + " *in) {"
    case 85 => // BeginObjectOut
      "if (jsb_begin_object(jsb)) return -1;"
    case 86 => // OpenBlock
      "{"
    case 87 => // EndObjectOut
      "return jsb_end_object(jsb);"
    case 88 => // StringifyHeader
      var simple, model := Arg(c, 0), Arg(c, 1); "char* stringify_" + simple + "_indent(" + model + " *in, int indent) {"
    case 89 => // JsbLocal
      "Jsb jsb = {.pp = indent};"
    case 90 => // IfStringifyFails
      var simple := Arg(c, 0); "if(_stringify_" + simple + "(&jsb, in)) {"
    case 91 => // JsbFree
      "jsb_free(&jsb);"
    case 92 => // ReturnNull
      "return NULL;"
    case 93 => // ReturnText
      "return jsb_get(&jsb);"
    case 94 => // StringifyMacro
      var simple := Arg(c, 0); "#define stringify_" + simple + "(in) stringify_" + simple + "_indent((in), 0)"
    case 95 => // StringifyListHeader
      var simple, model := Arg(c, 0), Arg(c, 1); 
      "char* stringify_" + simple + "_list_indent(" + model + " *in, size_t count, int indent) {"
    case 96 => // BeginListOut
      "if (jsb_begin_array(&jsb)) return NULL;"
    case 97 => // ItemLoop
      "for (size_t i = 0; i < count; i++) {"
    case 98 => // StringifyItem
      var simple := Arg(c, 0); "if (_stringify_" + simple + "(&jsb, &in[i])) return NULL;"
    case 99 => // EndListOut
      "if (jsb_end_array(&jsb)) return NULL;"
    case 100 => // StringifyListMacro
      var simple := Arg(c, 0); 
      "#define stringify_" + simple + "_list(in, count) stringify_" + simple + "_list_indent((in), (count), 0)"
    case 101 => // Close
      "}"
    case 102 => // ElseOpen
      "} else {"
    case 103 => // Blank
      ""
    case _ => ""
  }

  /**
   * One sb_cat_line call and what it says.  `Line(k, c)` passes the plain
   * indent k.  `PreDecrement(v, c)` passes `--indent` with indent == v: the
   * macro substitutes the argument into its loop test, so the variable is
   * decremented again on every test.
   */
  datatype Line = Line(indent: nat, code: Code) | PreDecrement(indent: nat, code: Code)

  /**
   * The spaces the macro's loop writes from counter i when its test
   * `i < (--indent) * 4` starts with indent == v.
   */
  function CountDownSpaces(i: int, v: int): nat
    decreases 4 * (v - 1) - i
  {
    if i < 4 * (v - 1) then 1 + CountDownSpaces(i + 1, v - 1) else 0
  }

  /** Each pass brings the counter and the bound 5 closer: the loop runs ceil((4(v-1)-i)/5) times. */
  lemma {:induction false} CountDownClosed(i: int, v: int)
    ensures CountDownSpaces(i, v) == if 4 * (v - 1) - i > 0 then (4 * (v - 1) - i + 4) / 5 else 0
    decreases 4 * (v - 1) - i
  {
    if i < 4 * (v - 1) {
      CountDownClosed(i + 1, v - 1);
    }
  }

  /** The leading spaces of a line. */
  function Indentation(l: Line): nat
  {
    match l
    case Line(k, _) => 4 * k
    case PreDecrement(v, _) => CountDownSpaces(0, v)
  }

  /** `sb_cat_line(sb, --indent, ...)` from indent == v writes 4v/5 spaces, not the 4(v-1) of indent v-1. */
  lemma {:induction false} PreDecrementSpaces(v: nat, c: Code)
    ensures Indentation(PreDecrement(v, c)) == 4 * v / 5
    ensures v >= 2 ==> 0 < Indentation(PreDecrement(v, c)) < 4 * (v - 1)
  {
    CountDownClosed(0, v);
  }

  /** The characters of a line: its indentation, the text, a newline. */
  function LineText(text: Code -> string, l: Line): string
  {
    JsbSpec.Spaces(Indentation(l)) + text(l.code) + "\n"
  }

  /** sb_cat_line's output: the indentation, then the text unchanged, then one newline; 4*indent spaces for a plain indent. */
  lemma {:induction false} LineTextShape(text: Code -> string, l: Line)
    ensures var r := LineText(text, l); var n := Indentation(l);
      |r| == n + |text(l.code)| + 1 && r[|r| - 1] == '\n' &&
      (forall i :: 0 <= i < n ==> r[i] == ' ') &&
      r[n..|r| - 1] == text(l.code)
    ensures l.Line? ==> Indentation(l) == 4 * l.indent
  {
    var r := LineText(text, l);
    assert r[Indentation(l)..|r| - 1] == text(l.code);
  }

  /** The characters of a sequence of lines. */
  function Render(text: Code -> string, ls: seq<Line>): (r: string)
    ensures |ls| == 0 ==> |r| == 0
  {
    if |ls| == 0 then [] else Render(text, ls[..|ls| - 1]) + LineText(text, ls[|ls| - 1])
  }

  /** Rendering is compositional: two blocks render to their two texts one after the other. */
  lemma {:induction false} RenderAppend(text: Code -> string, a: seq<Line>, b: seq<Line>)
    ensures Render(text, a + b) == Render(text, a) + Render(text, b)
    decreases |b|
  {
    if |b| > 0 {
      var init, last := b[..|b| - 1], b[|b| - 1];
      assert (a + b)[..|a + b| - 1] == a + init;
      assert (a + b)[|a + b| - 1] == last;
      RenderAppend(text, a, init);
      calc {
        Render(text, a + b);
        Render(text, a + init) + LineText(text, last);
        Render(text, a) + Render(text, init) + LineText(text, last);
        Render(text, a) + Render(text, b);
      }
    } else {
      assert a + b == a;
    }
  }

  lemma {:induction false} RenderSnoc(text: Code -> string, a: seq<Line>, l: Line)
    ensures Render(text, a + [l]) == Render(text, a) + LineText(text, l)
  {
    assert (a + [l])[..|a + [l]| - 1] == a;
  }

  /** Every line of the block starts with at least n spaces. */
  ghost predicate Indented(ls: seq<Line>, n: nat)
  {
    forall i :: 0 <= i < |ls| ==> Indentation(ls[i]) >= n
  }

  /** Every line of the block is indented at least k levels (4k spaces) deep. */
  ghost predicate Deeper(ls: seq<Line>, k: nat)
  {
    Indented(ls, 4 * k)
  }

  /** What the lines at depth k (4k spaces) say, in order. */
  function AtIndent(ls: seq<Line>, k: nat): seq<Code>
  {
    if |ls| == 0 then []
    else AtIndent(ls[..|ls| - 1], k) + (if Indentation(ls[|ls| - 1]) == 4 * k then [ls[|ls| - 1].code] else [])
  }

  lemma {:induction false} AtIndentAppend(a: seq<Line>, b: seq<Line>, k: nat)
    ensures AtIndent(a + b, k) == AtIndent(a, k) + AtIndent(b, k)
    decreases |b|
  {
    if |b| > 0 {
      var init, last := b[..|b| - 1], b[|b| - 1];
      assert (a + b)[..|a + b| - 1] == a + init;
      assert (a + b)[|a + b| - 1] == last;
      AtIndentAppend(a, init, k);
    } else {
      assert a + b == a;
    }
  }

  /** Lines indented deeper than k contribute nothing at k. */
  lemma {:induction false} AtIndentDeeper(ls: seq<Line>, k: nat)
    requires Deeper(ls, k + 1)
    ensures |AtIndent(ls, k)| == 0
  {
    if |ls| > 0 {
      AtIndentDeeper(ls[..|ls| - 1], k);
    }
  }

  lemma {:induction false} DeeperAppend(a: seq<Line>, b: seq<Line>, k: nat)
    requires Deeper(a, k) && Deeper(b, k)
    ensures Deeper(a + b, k)
  {
    IndentedAppend(a, b, 4 * k);
  }

  /** Two blocks together are indented n deep exactly when each is. */
  lemma {:induction false} IndentedAppend(a: seq<Line>, b: seq<Line>, n: nat)
    ensures Indented(a + b, n) <==> Indented(a, n) && Indented(b, n)
  {
    if Indented(a + b, n) {
      forall i | 0 <= i < |b|
        ensures Indentation(b[i]) >= n
      {
        assert b[i] == (a + b)[|a| + i];
      }
      forall i | 0 <= i < |a|
        ensures Indentation(a[i]) >= n
      {
        assert a[i] == (a + b)[i];
      }
    }
  }

  lemma {:induction false} DeeperWeaken(ls: seq<Line>, k: nat, j: nat)
    requires Deeper(ls, k) && j <= k
    ensures Deeper(ls, j)
  {
  }

  lemma {:induction false} IndentedWeaken(ls: seq<Line>, n: nat, m: nat)
    requires Indented(ls, n) && m <= n
    ensures Indented(ls, m)
  {
  }

  // ---------------------------------------------------------------------
  // gen_parse_field_body

  /** The lines that copy the raw text of a JSON object or array into a json_literal field. */
  function JsonLiteralParse(f: Field, ind: nat): (r: seq<Line>)
    ensures |r| == 15
  {
    [Line(ind, LiteralStart),
     Line(ind, LiteralDepth),
     Line(ind, LiteralOpener),
     Line(ind, LiteralCloser),
     Line(ind, LiteralScan),
     Line(ind + 1, LiteralEscape),
     Line(ind + 1, LiteralNest),
     Line(ind + 1, LiteralUnnest),
     Line(ind + 1, LiteralAdvance),
     Line(ind, Close),
     Line(ind, LiteralLength),
     Line(ind, LiteralAlloc(f.name)),
     Line(ind, LiteralCopy(f.name)),
     Line(ind, LiteralTerminate(f.name)),
     Line(ind, SkipEnd)]
  }

  /** The lines that store a decoded string: a heap copy for a pointer (and its length into the counter), a bounded copy into an array. */
  function StringParse(f: Field, ind: nat): (r: seq<Line>)
    ensures |r| > 0
  {
    (if f.isJsonLiteral then JsonLiteralParse(f, ind) else []) +
    if f.isPointer then
      [Line(ind, StringLength)] +
      (if f.hasCounter then [Line(ind, StoreLength(f.counterField))] else []) +
      [Line(ind, IfLength),
       Line(ind + 1, StringAlloc(f.name)),
       Line(ind + 1, StringCopy(f.name)),
       Line(ind, ElseOpen),
       Line(ind + 1, SetNull(f.name)),
       Line(ind, Close)]
    else
      [Line(ind, StringCopyBounded(f.name))]
  }

  /** The lines that decode an array field, element by element: a counted loop when it has a counter, a scan to ']' otherwise. */
  function ArrayParse(f: Field, ind: nat): (r: seq<Line>)
    ensures |r| >= 2
  {
    [Line(ind, BeginArray),
     Line(ind, ReturnIfErr)] +
    (if f.hasCounter then
       [Line(ind, ArrayLength),
        Line(ind, StoreCount(f.counterField)),
        Line(ind, ArrayAlloc(f.name, f.simpleType)),
        Line(ind, CountedLoop)]
     else
       [Line(ind, IndexStart),
        Line(ind, UncountedLoop)]) +
    (match JspType(f.simpleType)
     case Some(t) =>
       [Line(ind + 1, JspValue),
        Line(ind + 1, BreakIfErr),
        Line(ind + 1, StoreElement(f.name, t))]
     case None =>
       [Line(ind + 1, ParseElement(f.simpleType, f.name)),
        Line(ind + 1, BreakIfErr)]) +
    (if f.hasCounter then [] else [Line(ind + 1, NextIndex)]) +
    [Line(ind, Close),
     Line(ind, EndArray),
     Line(ind, ReturnIfErr)]
  }

  /**
   * gen_parse_field_body: the statements that decode one field's value.  The
   * scalar table is consulted first, on the full type text; only a type it
   * does not know is decoded as an array, a nested pointer or a nested
   * struct.
   */
  function ParseFieldLines(f: Field, ind: nat): (r: seq<Line>)
    ensures |r| >= 2
  {
    match JspType(f.typeText)
    case Some(t) =>
      [Line(ind, JspValue),
       Line(ind, ReturnIfErr)] +
      (if t == "string" then StringParse(f, ind) else [Line(ind, StoreScalar(f.name, t))])
    case None =>
      if f.isArray then ArrayParse(f, ind)
      else if f.isPointer then
        [Line(ind, JspValue),
         Line(ind, IfNullValue),
         Line(ind + 1, SetNull(f.name)),
         Line(ind, ElseOpen),
         Line(ind + 1, NestedAlloc(f.name, f.simpleType)),
         Line(ind + 1, ParseNested(f.simpleType, f.name)),
         Line(ind + 1, ReturnIfErr),
         Line(ind, Close)]
      else
        [Line(ind, ParseInPlace(f.simpleType, f.name)),
         Line(ind, ReturnIfErr)]
  }

  /**
   * How a field's statements begin: a value the scalar table knows is read
   * with jsp_value and checked; otherwise an array opens with
   * jsp_begin_array and ends checking the closing bracket, a nested pointer
   * is set to NULL on a JSON null, and a nested struct is parsed in place.
   */
  lemma {:induction false} ParseFieldShape(f: Field, ind: nat)
    ensures var r := ParseFieldLines(f, ind);
      JspType(f.typeText).Some? ==> r[0] == Line(ind, JspValue) && r[1] == Line(ind, ReturnIfErr)
    ensures var r := ParseFieldLines(f, ind);
      JspType(f.typeText).None? && f.isArray ==> r[0] == Line(ind, BeginArray) && r[|r| - 1] == Line(ind, ReturnIfErr)
    ensures var r := ParseFieldLines(f, ind);
      JspType(f.typeText).None? && !f.isArray && f.isPointer ==>
        r[0] == Line(ind, JspValue) && r[1] == Line(ind, IfNullValue) && r[2] == Line(ind + 1, SetNull(f.name))
    ensures var r := ParseFieldLines(f, ind);
      JspType(f.typeText).None? && !f.isArray && !f.isPointer ==>
        r == [Line(ind, ParseInPlace(f.simpleType, f.name)), Line(ind, ReturnIfErr)]
  {
  }

  /** A field's statements sit inside the branch that tests its key: none is shallower than the depth asked for. */
  lemma {:induction false} ParseFieldDeeper(f: Field, ind: nat)
    ensures Deeper(ParseFieldLines(f, ind), ind)
  {
    match JspType(f.typeText)
    case Some(t) =>
      if t == "string" {
        StringParseDeeper(f, ind);
        DeeperAppend([Line(ind, JspValue), Line(ind, ReturnIfErr)], StringParse(f, ind), ind);
      }
    case None =>
      if f.isArray {
        ArrayParseDeeper(f, ind);
      }
  }

  lemma {:induction false} StringParseDeeper(f: Field, ind: nat)
    ensures Deeper(StringParse(f, ind), ind)
  {
    var lit := if f.isJsonLiteral then JsonLiteralParse(f, ind) else [];
    var copy := StringParse(f, ind)[|lit|..];
    assert StringParse(f, ind) == lit + copy;
    assert Deeper(lit, ind);
    assert Deeper(copy, ind);
    DeeperAppend(lit, copy, ind);
  }

  lemma {:induction false} ArrayParseDeeper(f: Field, ind: nat)
    ensures Deeper(ArrayParse(f, ind), ind)
  {
  }

  /** A number or boolean field is stored straight from the decoded value, under the jsp member of its kind. */
  lemma {:induction false} ScalarParse(f: Field, ind: nat)
    requires JspType(f.typeText) in {Some("number"), Some("boolean")}
    ensures ParseFieldLines(f, ind) == [Line(ind, JspValue), Line(ind, ReturnIfErr), Line(ind, StoreScalar(f.name, JspType(f.typeText).value))]
  {
  }

  /**
   * A char* field gets a heap copy of the string when it is non-empty and
   * NULL otherwise; a json_literal char* field first captures the raw text,
   * then runs the same copy.
   */
  lemma {:induction false} StringPointerParse(f: Field, ind: nat)
    requires JspType(f.typeText) == Some("string") && f.isPointer && !f.hasCounter
    ensures var r := ParseFieldLines(f, ind);
      var copy := [Line(ind, StringLength), Line(ind, IfLength), Line(ind + 1, StringAlloc(f.name)),
                   Line(ind + 1, StringCopy(f.name)), Line(ind, ElseOpen), Line(ind + 1, SetNull(f.name)), Line(ind, Close)];
      r == [Line(ind, JspValue), Line(ind, ReturnIfErr)] + (if f.isJsonLiteral then JsonLiteralParse(f, ind) else []) + copy
  {
  }

  // ---------------------------------------------------------------------
  // gen_stringify_field

  /** The extra argument of a jsb writer: the precision 5 for jsb_number, nothing for the others. */
  function PrecisionArg(kind: string): (r: string)
    ensures r == ", 5" <==> kind == "number"
    ensures r == "" <==> kind != "number"
  {
    if kind == "number" then ", 5" else ""
  }

  /** The lines that write a field's value, after its key, at depth g. */
  function ValueLines(f: Field, g: nat): (r: seq<Line>)
    ensures |r| > 0
  {
    match JsbType(f.typeText)
    case Some(t) =>
      if f.isJsonLiteral then
        [Line(g, LiteralSize(f.name)),
         Line(g, IfLiteral),
         Line(g + 1, LiteralReserve),
         Line(g + 1, LiteralAppend(f.name)),
         Line(g + 1, LiteralGrow),
         Line(g + 1, LiteralEnd),
         Line(g + 1, LiteralNotFirst),
         Line(g + 1, LiteralNotKey),
         Line(g, ElseNull)]
      else
        [Line(g, WriteScalar(t, f.name, PrecisionArg(t)))]
    case None =>
      if f.isArray then
        [Line(g, BeginArrayOut)] +
        (if f.hasCounter then
           [Line(g, CountLoop(f.counterField)),
            match JsbType(f.simpleType)
            case Some(a) => Line(g + 1, WriteElement(a, f.name))
            case None => Line(g + 1, StringifyElement(f.simpleType, f.name)),
            Line(g, Close)]
         else []) +
        [Line(g, EndArrayOut)]
      else if f.isPointer then
        [Line(g, NullIfAbsent(f.name)),
         Line(g, StringifyPointee(f.simpleType, f.name))]
      else
        [Line(g, StringifyInPlace(f.simpleType, f.name))]
  }

  lemma {:induction false} ValueDeeper(f: Field, g: nat)
    ensures Deeper(ValueLines(f, g), g)
  {
  }

  /** Where the key line of a field's block sits: after the NULL guard of a pointer field. */
  function KeyAt(f: Field): nat
  {
    if f.isPointer then 1 else 0
  }

  /**
   * gen_stringify_field: nothing for a counter field; otherwise the key and
   * the value, wrapped in a NULL check for a pointer field.  The check is
   * closed by `sb_cat_line(sb, --indent, "}")` after `indent++`.
   */
  function StringifyFieldLines(f: Field, ind: nat): (r: seq<Line>)
    ensures f.isCounterField <==> |r| == 0
    ensures !f.isCounterField ==> |r| >= 2 * KeyAt(f) + 2
  {
    if f.isCounterField then []
    else if f.isPointer then [Line(ind, IfPresent(f.name))] + KeyValue(f, ind + 1) + [PreDecrement(ind + 1, Close)]
    else KeyValue(f, ind)
  }

  /** The key of a field, then its value, at depth g. */
  function KeyValue(f: Field, g: nat): (r: seq<Line>)
    ensures |r| >= 2
  {
    [Line(g, WriteKey(KeyName(f)))] + ValueLines(f, g)
  }

  lemma {:induction false} KeyValueDeeper(f: Field, g: nat)
    ensures Deeper(KeyValue(f, g), g)
  {
    ValueDeeper(f, g);
    DeeperAppend([Line(g, WriteKey(KeyName(f)))], ValueLines(f, g), g);
  }

  /**
   * A written field is its key, then its value: the key line sits at
   * KeyAt(f), followed by the value lines; a pointer field's block is
   * wrapped in a NULL check that opens first and closes last, the closing
   * brace with 4(ind+1)/5 spaces.
   */
  lemma {:induction false} StringifyFieldShape(f: Field, ind: nat)
    ensures var r := StringifyFieldLines(f, ind);
      !f.isCounterField ==> r[KeyAt(f)] == Line(ind + KeyAt(f), WriteKey(KeyName(f)))
    ensures var r := StringifyFieldLines(f, ind);
      !f.isCounterField ==> r[KeyAt(f) + 1..|r| - KeyAt(f)] == ValueLines(f, ind + KeyAt(f))
    ensures var r := StringifyFieldLines(f, ind);
      !f.isCounterField && f.isPointer ==> r[0] == Line(ind, IfPresent(f.name)) && r[|r| - 1] == PreDecrement(ind + 1, Close)
    ensures var r := StringifyFieldLines(f, ind);
      !f.isCounterField && f.isPointer ==> Indentation(r[|r| - 1]) == 4 * (ind + 1) / 5
  {
    PreDecrementSpaces(ind + 1, Close);
    if !f.isCounterField {
      var r := StringifyFieldLines(f, ind);
      var g := ind + KeyAt(f);
      var kv := KeyValue(f, g);
      assert kv[1..] == ValueLines(f, g);
      if f.isPointer {
        assert r[1..|r| - 1] == kv;
        assert r[2..|r| - 1] == kv[1..];
      } else {
        assert r[1..] == kv[1..];
      }
    }
  }

  /**
   * The field's block sits at the depth asked for, except the brace that
   * closes a pointer field's NULL check: it has 4(ind+1)/5 spaces, fewer
   * than 4*ind once ind >= 1.  Every line still starts with at least
   * 4(ind+1)/5 spaces.
   */
  lemma {:induction false} StringifyFieldDeeper(f: Field, ind: nat)
    ensures var r := StringifyFieldLines(f, ind);
      Deeper(r, ind) <==> f.isCounterField || !f.isPointer || ind == 0
    ensures var r := StringifyFieldLines(f, ind);
      !f.isCounterField && f.isPointer ==> Deeper(r[..|r| - 1], ind)
    ensures Indented(StringifyFieldLines(f, ind), 4 * (ind + 1) / 5)
  {
    var r := StringifyFieldLines(f, ind);
    if f.isCounterField {
    } else if f.isPointer {
      var guard := [Line(ind, IfPresent(f.name))] + KeyValue(f, ind + 1);
      var close := PreDecrement(ind + 1, Close);
      assert r == guard + [close];
      KeyValueDeeper(f, ind + 1);
      DeeperWeaken(KeyValue(f, ind + 1), ind + 1, ind);
      DeeperAppend([Line(ind, IfPresent(f.name))], KeyValue(f, ind + 1), ind);
      assert r[..|r| - 1] == guard;
      PreDecrementSpaces(ind + 1, Close);
      IndentedAppend(guard, [close], 4 * ind);
      assert Indented([close], 4 * ind) <==> ind == 0 by {
        assert [close][0] == close;
        if ind > 0 {
          assert Indentation(close) < 4 * ind;
        } else {
          assert Indentation(close) >= 0;
        }
      }
      IndentedWeaken(guard, 4 * ind, 4 * (ind + 1) / 5);
      IndentedAppend(guard, [close], 4 * (ind + 1) / 5);
    } else {
      KeyValueDeeper(f, ind);
      IndentedWeaken(r, 4 * ind, 4 * (ind + 1) / 5);
    }
  }

  /** Inside a pointer field's NULL check, the key and the value lie one level deeper than the check. */
  lemma {:induction false} PointerGuarded(f: Field, ind: nat)
    requires f.isPointer && !f.isCounterField
    ensures var r := StringifyFieldLines(f, ind);
      Deeper(r[1..|r| - 1], ind + 1)
  {
    var r := StringifyFieldLines(f, ind);
    KeyValueDeeper(f, ind + 1);
    assert r[1..|r| - 1] == KeyValue(f, ind + 1);
  }

  /** Every value the table classifies as a number is written with jsb_number and the precision argument 5. */
  lemma {:induction false} NumberPrecision(f: Field, g: nat)
    requires JsbType(f.typeText) == Some("number") && !f.isJsonLiteral
    ensures ValueLines(f, g) == [Line(g, WriteScalar("number", f.name, ", 5"))]
  {
  }

  /** An array field without a counter is written as an empty array: begin and end, no element loop. */
  lemma {:induction false} UncountedArray(f: Field, g: nat)
    requires JsbType(f.typeText).None? && f.isArray && !f.hasCounter
    ensures ValueLines(f, g) == [Line(g, BeginArrayOut), Line(g, EndArrayOut)]
  {
  }

  /**
   * `float *values sized_by(count);` has the type text "float*", which the
   * scalar tables classify as a number before the array flag is looked at:
   * the field is written as one number and read as one number, with no
   * element loop.
   */
  lemma {:induction false} ScalarBeforeArray()
    ensures var f := EmptyField.(name := "values", typeText := "float*", simpleType := "float", isPointer := true,
                                 isArray := true, hasCounter := true, counterField := "count");
      StringifyFieldLines(f, 2) ==
        [Line(2, IfPresent("values")),
         Line(3, WriteKey("values")),
         Line(3, WriteScalar("number", "values", ", 5")),
         PreDecrement(3, Close)] &&
      LineText(CodeText, PreDecrement(3, Close)) == "  }\n" &&
      ParseFieldLines(f, 3) == [Line(3, JspValue), Line(3, ReturnIfErr), Line(3, StoreScalar("values", "number"))]
  {
    assert "float*"[..5] == "float";
    PreDecrementSpaces(3, Close);
  }

  // ---------------------------------------------------------------------
  // generate_model_code

  /** The key dispatch over the first n fields: a key test at depth 2 and the field body at depth 3, counter fields skipped. */
  function Dispatch(fs: seq<Field>, n: nat): seq<Line>
    requires n <= |fs|
  {
    if n == 0 then []
    else if fs[n - 1].isCounterField then Dispatch(fs, n - 1)
    else Dispatch(fs, n - 1) + [Line(2, KeyTest(n - 1 > 0, KeyName(fs[n - 1])))] + ParseFieldLines(fs[n - 1], 3)
  }

  lemma {:induction false} DispatchDeeper(fs: seq<Field>, n: nat)
    requires n <= |fs|
    ensures Deeper(Dispatch(fs, n), 2)
  {
    if n > 0 {
      DispatchDeeper(fs, n - 1);
      if !fs[n - 1].isCounterField {
        ParseFieldDeeper(fs[n - 1], 3);
        DeeperAppend(Dispatch(fs, n - 1), [Line(2, KeyTest(n - 1 > 0, KeyName(fs[n - 1])))], 2);
        DeeperAppend(Dispatch(fs, n - 1) + [Line(2, KeyTest(n - 1 > 0, KeyName(fs[n - 1])))], ParseFieldLines(fs[n - 1], 3), 2);
      }
    }
  }

  /** The key tests of the non-counter fields among the first n, in declaration order; "} else " joins all but field 0. */
  function Clauses(fs: seq<Field>, n: nat): seq<Code>
    requires n <= |fs|
  {
    if n == 0 then []
    else Clauses(fs, n - 1) + (if fs[n - 1].isCounterField then [] else [KeyTest(n - 1 > 0, KeyName(fs[n - 1]))])
  }

  /**
   * The dispatch holds exactly one key test per non-counter field, in
   * declaration order: its lines at depth 2 are the key tests, the field
   * bodies lying deeper.
   */
  lemma {:induction false} DispatchClauses(fs: seq<Field>, n: nat)
    requires n <= |fs|
    ensures AtIndent(Dispatch(fs, n), 2) == Clauses(fs, n)
  {
    if n > 0 {
      DispatchClauses(fs, n - 1);
      if !fs[n - 1].isCounterField {
        var test := [Line(2, KeyTest(n - 1 > 0, KeyName(fs[n - 1])))];
        var body := ParseFieldLines(fs[n - 1], 3);
        AtIndentAppend(Dispatch(fs, n - 1) + test, body, 2);
        AtIndentAppend(Dispatch(fs, n - 1), test, 2);
        ParseFieldDeeper(fs[n - 1], 3);
        AtIndentDeeper(body, 2);
        assert test[..0] == [];
      }
    }
  }

  /**
   * The joiner follows the field index, not the number of tests written:
   * when the first field is a counter, the first test already starts with
   * "} else ", an else without an if in the generated C.
   */
  lemma {:induction false} CounterFirstJoiner()
    ensures var count := EmptyField.(name := "count", typeText := "int", simpleType := "int", isCounterField := true);
      var items := EmptyField.(name := "items", typeText := "Item*", simpleType := "Item", isPointer := true,
                               isArray := true, hasCounter := true, counterField := "count");
      Clauses([count, items], 2) == [KeyTest(true, "items")]
  {
    var count := EmptyField.(name := "count", typeText := "int", simpleType := "int", isCounterField := true);
    var items := EmptyField.(name := "items", typeText := "Item*", simpleType := "Item", isPointer := true,
                             isArray := true, hasCounter := true, counterField := "count");
    assert Clauses([count, items], 1) == [];
  }

  /** A later key test is the first field's test with "} else " in front. */
  lemma {:induction false} LaterTestJoins(key: string)
    ensures CodeText(KeyTest(true, key)) == "} else " + CodeText(KeyTest(false, key))
  {
    assert CodeText(KeyTest(true, key)) == "} else " + KeyCompare(key);
    assert CodeText(KeyTest(false, key)) == KeyCompare(key);
  }

  /** A C function: its header at depth 0, its body, the closing brace. */
  function Routine(header: Code, body: seq<Line>): seq<Line>
  {
    [Line(0, header)] + body + [Line(0, Close)]
  }

  /** The start of `_parse_<simple>` after its header: open the object, loop over its keys. */
  const ParseOpen: seq<Line> := [Line(1, MarkUnused), Line(1, BeginObject), Line(1, ReturnIfErr), Line(1, KeyLoop)]

  /** The end of `_parse_<simple>` before its closing brace: skip the value of an unknown key, close the object. */
  const ParseObjectEnd: seq<Line> :=
    [Line(3, SkipValue), Line(3, ReturnIfErr), Line(2, Close), Line(1, Close), Line(1, EndObject), Line(1, ReturnErr)]

  /** The body of `_parse_<simple>`: the key dispatch, then the fallthrough clause for unknown keys. */
  function ParseObjectBody(m: Model): seq<Line>
  {
    ParseOpen + Dispatch(m.fields, |m.fields|) + [Line(2, FallThrough(|m.fields| > 0))] + ParseObjectEnd
  }

  /** `_parse_<simple>`: decode one object of the model from the parser's position. */
  function ParseObject(m: Model): seq<Line>
  {
    Routine(ParseObjectHeader(m.simpleName, m.name), ParseObjectBody(m))
  }

  function ParseEntryBody(m: Model): seq<Line>
  {
    [Line(1, JspLocal), Line(1, JspInit), Line(1, ReturnIfErr), Line(1, ParseRoot(m.simpleName)),
     Line(1, JspFree), Line(1, ReturnErr)]
  }

  /** `parse_<simple>`: decode a whole document. */
  function ParseEntry(m: Model): seq<Line>
  {
    Routine(ParseHeader(m.simpleName, m.name), ParseEntryBody(m))
  }

  function ParseListBody(m: Model): seq<Line>
  {
    [Line(1, BeginList), Line(1, ReturnIfErr), Line(1, ArrayLength), Line(1, StoreListCount),
     Line(1, ListAlloc(m.name)), Line(1, CountedLoop), Line(2, ParseItem(m.simpleName)), Line(2, ReturnIfErr),
     Line(1, Close), Line(1, EndArray), Line(1, ResetOnErr), Line(1, ReturnErr)]
  }

  /** `_parse_<simple>_list`: decode an array of the model into a fresh block. */
  function ParseListObject(m: Model): seq<Line>
  {
    Routine(ParseListObjectHeader(m.simpleName, m.name), ParseListBody(m))
  }

  function ParseListEntryBody(m: Model): seq<Line>
  {
    [Line(1, JspLocal), Line(1, JspInit), Line(1, ReturnIfErr), Line(1, ParseListRoot(m.simpleName)),
     Line(1, JspFree), Line(1, ReturnErr)]
  }

  /** `parse_<simple>_list`: decode a whole document holding an array of the model. */
  function ParseListEntry(m: Model): seq<Line>
  {
    Routine(ParseListHeader(m.simpleName, m.name), ParseListEntryBody(m))
  }

  const BlankLine: seq<Line> := [Line(0, Blank)]

  /** The parse routines after `_parse_<simple>`; no blank line separates the two list routines. */
  function ParseRest(m: Model): seq<Line>
  {
    BlankLine + ParseEntry(m) + BlankLine + ParseListObject(m) + ParseListEntry(m) + BlankLine
  }

  /** The four parse routines of a model. */
  function ParseLines(m: Model): seq<Line>
  {
    ParseObject(m) + ParseRest(m)
  }

  /** The stringify lines of the first n fields, at depth 2. */
  function StringifyFields(fs: seq<Field>, n: nat): seq<Line>
    requires n <= |fs|
  {
    if n == 0 then [] else StringifyFields(fs, n - 1) + StringifyFieldLines(fs[n - 1], 2)
  }

  /**
   * Every line written for the fields starts with at least 2 spaces; they
   * all sit at depth 2 exactly when no field written is a pointer, whose
   * closing brace has 2 spaces.
   */
  lemma {:induction false} StringifyFieldsDeeper(fs: seq<Field>, n: nat)
    requires n <= |fs|
    ensures Indented(StringifyFields(fs, n), 2)
    ensures Deeper(StringifyFields(fs, n), 2) <==> forall j :: 0 <= j < n ==> fs[j].isCounterField || !fs[j].isPointer
  {
    if n > 0 {
      var a, b := StringifyFields(fs, n - 1), StringifyFieldLines(fs[n - 1], 2);
      StringifyFieldsDeeper(fs, n - 1);
      StringifyFieldDeeper(fs[n - 1], 2);
      IndentedAppend(a, b, 2);
      IndentedAppend(a, b, 8);
    }
  }

  /** The start of `_stringify_<simple>` after its header: open the object. */
  const StringifyOpen: seq<Line> := [Line(1, BeginObjectOut), Line(1, OpenBlock)]

  /** The end of `_stringify_<simple>` before its closing brace: close the object. */
  const StringifyObjectEnd: seq<Line> := [Line(1, Close), Line(1, EndObjectOut)]

  /** The body of `_stringify_<simple>`: every field in declaration order. */
  function StringifyObjectBody(m: Model): seq<Line>
  {
    StringifyOpen + StringifyFields(m.fields, |m.fields|) + StringifyObjectEnd
  }

  /** `_stringify_<simple>`: write one object of the model. */
  function StringifyObject(m: Model): seq<Line>
  {
    Routine(StringifyObjectHeader(m.simpleName, m.name), StringifyObjectBody(m))
  }

  function StringifyEntryBody(m: Model): seq<Line>
  {
    [Line(1, JsbLocal), Line(1, IfStringifyFails(m.simpleName)), Line(2, JsbFree), Line(2, ReturnNull),
     Line(1, Close), Line(1, ReturnText)]
  }

  /** `stringify_<simple>_indent`: the text of one value, or NULL when writing fails. */
  function StringifyEntry(m: Model): seq<Line>
  {
    Routine(StringifyHeader(m.simpleName, m.name), StringifyEntryBody(m))
  }

  function StringifyListEntryBody(m: Model): seq<Line>
  {
    [Line(1, JsbLocal), Line(1, BeginListOut), Line(1, ItemLoop), Line(2, StringifyItem(m.simpleName)),
     Line(1, Close), Line(1, EndListOut), Line(1, ReturnText)]
  }

  /** `stringify_<simple>_list_indent`: the text of an array of values. */
  function StringifyListEntry(m: Model): seq<Line>
  {
    Routine(StringifyListHeader(m.simpleName, m.name), StringifyListEntryBody(m))
  }

  /** What follows `_stringify_<simple>`: the two entry points and their macros. */
  function StringifyRest(m: Model): seq<Line>
  {
    BlankLine + StringifyEntry(m) + BlankLine +
    [Line(0, StringifyMacro(m.simpleName))] + BlankLine +
    StringifyListEntry(m) + BlankLine +
    [Line(0, StringifyListMacro(m.simpleName))] + BlankLine
  }

  /** The stringify routines of a model and their two macros. */
  function StringifyLines(m: Model): seq<Line>
  {
    StringifyObject(m) + StringifyRest(m)
  }

  /** generate_model_code: the parse routines when the model parses, then the stringify routines when it stringifies. */
  function ModelLines(m: Model): seq<Line>
  {
    (if m.parse then ParseLines(m) else []) + (if m.stringify then StringifyLines(m) else [])
  }

  // ---------------------------------------------------------------------
  // What a model's code declares

  /** The lines that open a top-level C declaration. */
  predicate IsDeclaration(c: Code)
  {
    // ParseObjectHeader, ParseHeader, ParseListObjectHeader, ParseListHeader,
    // StringifyObjectHeader, StringifyHeader, StringifyMacro, StringifyListHeader
    // and StringifyListMacro
    c.op in {60, 71, 76, 82, 84, 88, 94, 95, 100}
  }

  /** The top-level declarations among some lines, in order. */
  function Declarations(ls: seq<Line>): seq<Code>
  {
    if |ls| == 0 then []
    else
      var l := ls[|ls| - 1];
      Declarations(ls[..|ls| - 1]) + (if Indentation(l) == 0 && IsDeclaration(l.code) then [l.code] else [])
  }

  lemma {:induction false} DeclarationsAppend(a: seq<Line>, b: seq<Line>)
    ensures Declarations(a + b) == Declarations(a) + Declarations(b)
    decreases |b|
  {
    if |b| > 0 {
      var init, last := b[..|b| - 1], b[|b| - 1];
      assert (a + b)[..|a + b| - 1] == a + init;
      assert (a + b)[|a + b| - 1] == last;
      DeclarationsAppend(a, init);
    } else {
      assert a + b == a;
    }
  }

  lemma {:induction false} DeclarationsThen(a: seq<Line>, b: seq<Line>, da: seq<Code>, db: seq<Code>)
    requires Declarations(a) == da && Declarations(b) == db
    ensures Declarations(a + b) == da + db
  {
    DeclarationsAppend(a, b);
  }

  /** No line at column 0 opens a declaration. */
  ghost predicate Undeclaring(ls: seq<Line>)
  {
    forall i :: 0 <= i < |ls| ==> Indentation(ls[i]) > 0 || !IsDeclaration(ls[i].code)
  }

  lemma {:induction false} DeclarationsNone(ls: seq<Line>)
    requires Undeclaring(ls)
    ensures |Declarations(ls)| == 0
  {
    if |ls| > 0 {
      DeclarationsNone(ls[..|ls| - 1]);
    }
  }

  lemma {:induction false} DeclarationsOne(l: Line)
    ensures Declarations([l]) == if Indentation(l) == 0 && IsDeclaration(l.code) then [l.code] else []
  {
    assert [l][..0] == [];
  }

  /** Indented lines open no declaration. */
  lemma {:induction false} DeeperUndeclaring(ls: seq<Line>, n: nat)
    requires n > 0 && Indented(ls, n)
    ensures Undeclaring(ls)
  {
  }

  /** A routine declares its header and nothing else. */
  lemma {:induction false} RoutineDeclares(header: Code, body: seq<Line>)
    requires IsDeclaration(header) && Indented(body, 1)
    ensures Declarations(Routine(header, body)) == [header]
  {
    var open, close := [Line(0, header)], [Line(0, Close)];
    assert Declarations(open + body) == [header] by {
      DeeperUndeclaring(body, 1);
      DeclarationsNone(body);
      DeclarationsOne(Line(0, header));
      DeclarationsAppend(open, body);
    }
    assert |Declarations(close)| == 0 by {
      DeclarationsOne(Line(0, Close));
    }
    DeclarationsAppend(open + body, close);
  }

  lemma {:induction false} ParseObjectBodyDeeper(m: Model)
    ensures Deeper(ParseObjectBody(m), 1)
  {
    var d := Dispatch(m.fields, |m.fields|);
    var fall := [Line(2, FallThrough(|m.fields| > 0))];
    DispatchDeeper(m.fields, |m.fields|);
    DeeperWeaken(d, 2, 1);
    DeeperAppend(ParseOpen, d, 1);
    DeeperAppend(ParseOpen + d, fall, 1);
    DeeperAppend(ParseOpen + d + fall, ParseObjectEnd, 1);
  }

  /** A blank separator and a routine after some lines add the routine's declaration. */
  lemma {:induction false} DeclarationsStep(a: seq<Line>, b: seq<Line>, x: seq<Line>, da: seq<Code>, c: Code)
    requires Declarations(a) == da && |Declarations(b)| == 0 && Declarations(x) == [c]
    ensures Declarations(a + b + x) == da + [c]
  {
    DeclarationsAppend(a, b);
    DeclarationsAppend(a + b, x);
  }

  lemma {:induction false} ParseRestShape(b: seq<Line>, e1: seq<Line>, e2: seq<Line>, e3: seq<Line>, h1: Code, h2: Code, h3: Code)
    requires |Declarations(b)| == 0
    requires Declarations(e1) == [h1] && Declarations(e2) == [h2] && Declarations(e3) == [h3]
    ensures Declarations(b + e1 + b + e2 + e3 + b) == [h1, h2, h3]
  {
    DeclarationsAppend(b, e1);
    DeclarationsStep(b + e1, b, e2, [h1], h2);
    DeclarationsAppend(b + e1 + b + e2, e3);
    DeclarationsAppend(b + e1 + b + e2 + e3, b);
  }

  lemma {:induction false} ParseRestDeclares(m: Model)
    ensures Declarations(ParseRest(m)) ==
      [ParseHeader(m.simpleName, m.name), ParseListObjectHeader(m.simpleName, m.name), ParseListHeader(m.simpleName, m.name)]
  {
    RoutineDeclares(ParseHeader(m.simpleName, m.name), ParseEntryBody(m));
    RoutineDeclares(ParseListObjectHeader(m.simpleName, m.name), ParseListBody(m));
    RoutineDeclares(ParseListHeader(m.simpleName, m.name), ParseListEntryBody(m));
    DeclarationsNone(BlankLine);
    ParseRestShape(BlankLine, ParseEntry(m), ParseListObject(m), ParseListEntry(m), ParseHeader(m.simpleName, m.name),
                   ParseListObjectHeader(m.simpleName, m.name), ParseListHeader(m.simpleName, m.name));
  }

  lemma {:induction false} ParseDeclares(m: Model)
    ensures Declarations(ParseLines(m)) ==
      [ParseObjectHeader(m.simpleName, m.name), ParseHeader(m.simpleName, m.name),
       ParseListObjectHeader(m.simpleName, m.name), ParseListHeader(m.simpleName, m.name)]
  {
    assert Declarations(ParseObject(m)) == [ParseObjectHeader(m.simpleName, m.name)] by {
      ParseObjectBodyDeeper(m);
      RoutineDeclares(ParseObjectHeader(m.simpleName, m.name), ParseObjectBody(m));
    }
    ParseRestDeclares(m);
    DeclarationsThen(ParseObject(m), ParseRest(m), [ParseObjectHeader(m.simpleName, m.name)],
                     [ParseHeader(m.simpleName, m.name), ParseListObjectHeader(m.simpleName, m.name),
                      ParseListHeader(m.simpleName, m.name)]);
  }

  lemma {:induction false} StringifyObjectBodyDeeper(m: Model)
    ensures Indented(StringifyObjectBody(m), 2)
  {
    var fl := StringifyFields(m.fields, |m.fields|);
    StringifyFieldsDeeper(m.fields, |m.fields|);
    IndentedAppend(StringifyOpen, fl, 2);
    IndentedAppend(StringifyOpen + fl, StringifyObjectEnd, 2);
  }

  lemma {:induction false} StringifyRestShape(b: seq<Line>, e1: seq<Line>, m1: seq<Line>, e2: seq<Line>, m2: seq<Line>,
                           h1: Code, c1: Code, h2: Code, c2: Code)
    requires |Declarations(b)| == 0
    requires Declarations(e1) == [h1] && Declarations(m1) == [c1] && Declarations(e2) == [h2] && Declarations(m2) == [c2]
    ensures Declarations(b + e1 + b + m1 + b + e2 + b + m2 + b) == [h1, c1, h2, c2]
  {
    DeclarationsAppend(b, e1);
    DeclarationsStep(b + e1, b, m1, [h1], c1);
    DeclarationsStep(b + e1 + b + m1, b, e2, [h1] + [c1], h2);
    DeclarationsStep(b + e1 + b + m1 + b + e2, b, m2, [h1] + [c1] + [h2], c2);
    DeclarationsAppend(b + e1 + b + m1 + b + e2 + b + m2, b);
  }

  lemma {:induction false} StringifyRestDeclares(m: Model)
    ensures Declarations(StringifyRest(m)) ==
      [StringifyHeader(m.simpleName, m.name), StringifyMacro(m.simpleName),
       StringifyListHeader(m.simpleName, m.name), StringifyListMacro(m.simpleName)]
  {
    var c1, c2 := StringifyMacro(m.simpleName), StringifyListMacro(m.simpleName);
    RoutineDeclares(StringifyHeader(m.simpleName, m.name), StringifyEntryBody(m));
    RoutineDeclares(StringifyListHeader(m.simpleName, m.name), StringifyListEntryBody(m));
    DeclarationsNone(BlankLine);
    DeclarationsOne(Line(0, c1));
    DeclarationsOne(Line(0, c2));
    StringifyRestShape(BlankLine, StringifyEntry(m), [Line(0, c1)], StringifyListEntry(m), [Line(0, c2)],
                       StringifyHeader(m.simpleName, m.name), c1, StringifyListHeader(m.simpleName, m.name), c2);
  }

  lemma {:induction false} StringifyDeclares(m: Model)
    ensures Declarations(StringifyLines(m)) ==
      [StringifyObjectHeader(m.simpleName, m.name), StringifyHeader(m.simpleName, m.name), StringifyMacro(m.simpleName),
       StringifyListHeader(m.simpleName, m.name), StringifyListMacro(m.simpleName)]
  {
    assert Declarations(StringifyObject(m)) == [StringifyObjectHeader(m.simpleName, m.name)] by {
      StringifyObjectBodyDeeper(m);
      RoutineDeclares(StringifyObjectHeader(m.simpleName, m.name), StringifyObjectBody(m));
    }
    StringifyRestDeclares(m);
    DeclarationsThen(StringifyObject(m), StringifyRest(m), [StringifyObjectHeader(m.simpleName, m.name)],
                     [StringifyHeader(m.simpleName, m.name), StringifyMacro(m.simpleName),
                      StringifyListHeader(m.simpleName, m.name), StringifyListMacro(m.simpleName)]);
  }

  /**
   * The routines generated for a model, by name and in order: the four parse
   * routines exactly when the model parses (JSON or JSONP), then the two
   * stringify functions and their macros exactly when it stringifies (JSON
   * or JSONS).  The names come from the model's simple name, the parameter
   * types from its C name.
   */
  lemma {:induction false} ModelDeclarations(m: Model)
    ensures Declarations(ModelLines(m)) ==
      (if m.parse then
         [ParseObjectHeader(m.simpleName, m.name), ParseHeader(m.simpleName, m.name),
          ParseListObjectHeader(m.simpleName, m.name), ParseListHeader(m.simpleName, m.name)]
       else []) +
      (if m.stringify then
         [StringifyObjectHeader(m.simpleName, m.name), StringifyHeader(m.simpleName, m.name), StringifyMacro(m.simpleName),
          StringifyListHeader(m.simpleName, m.name), StringifyListMacro(m.simpleName)]
       else [])
  {
    DeclarationsAppend(if m.parse then ParseLines(m) else [], if m.stringify then StringifyLines(m) else []);
    if m.parse {
      ParseDeclares(m);
    }
    if m.stringify {
      StringifyDeclares(m);
    }
  }

  /** Where the key line of field i sits in the stringify block. */
  function KeyPosition(fs: seq<Field>, i: nat): (r: nat)
    requires i < |fs|
    ensures |StringifyFields(fs, i)| <= r
  {
    |StringifyFields(fs, i)| + KeyAt(fs[i])
  }

  /** The key line of field i sits at KeyPosition(fs, i), in the lines of field i and of any longer run of fields. */
  lemma {:induction false} KeyLine(fs: seq<Field>, i: nat, n: nat)
    requires i < n <= |fs| && !fs[i].isCounterField
    ensures KeyPosition(fs, i) < |StringifyFields(fs, n)|
    ensures StringifyFields(fs, n)[KeyPosition(fs, i)] == Line(2 + KeyAt(fs[i]), WriteKey(KeyName(fs[i])))
    decreases n
  {
    var a, b := StringifyFields(fs, n - 1), StringifyFieldLines(fs[n - 1], 2);
    if n == i + 1 {
      KeyInField(fs[i]);
      StringifyFieldShape(fs[i], 2);
      IndexRight(a, b, KeyAt(fs[i]));
    } else {
      KeyLine(fs, i, n - 1);
      IndexLeft(a, b, KeyPosition(fs, i));
    }
  }

  /** The lines of a non-counter field reach past its key line. */
  lemma {:induction false} KeyInField(f: Field)
    requires !f.isCounterField
    ensures KeyAt(f) < |StringifyFieldLines(f, 2)|
  {
    if f.isPointer {
      assert |StringifyFieldLines(f, 2)| == |KeyValue(f, 3)| + 2;
    }
  }

  lemma {:induction false} IndexLeft<T>(a: seq<T>, b: seq<T>, p: nat)
    requires p < |a|
    ensures p < |a + b| && (a + b)[p] == a[p]
  {
  }

  lemma {:induction false} IndexRight<T>(a: seq<T>, b: seq<T>, q: nat)
    requires q < |b|
    ensures |a| + q < |a + b| && (a + b)[|a| + q] == b[q]
  {
  }

  lemma {:induction false} KeyPlaced(fs: seq<Field>, i: nat)
    requires i < |fs| && !fs[i].isCounterField
    ensures KeyPosition(fs, i) < |StringifyFields(fs, |fs|)|
    ensures StringifyFields(fs, |fs|)[KeyPosition(fs, i)] == Line(2 + KeyAt(fs[i]), WriteKey(KeyName(fs[i])))
  {
    KeyLine(fs, i, |fs|);
  }

  /**
   * The stringify block writes the key of every non-counter field, in
   * declaration order: the key of field i sits at KeyPosition(fs, i), and a
   * later field's key sits further down.
   */
  lemma {:induction false} KeysInOrder(fs: seq<Field>, i: nat, j: nat)
    requires i < j < |fs| && !fs[i].isCounterField && !fs[j].isCounterField
    ensures KeyPosition(fs, i) < KeyPosition(fs, j) < |StringifyFields(fs, |fs|)|
  {
    KeyLine(fs, i, j);
    KeyLine(fs, j, |fs|);
  }

  // ---------------------------------------------------------------------
  // The emitting methods

  /** The String builder the generated code is appended to, seen as its contents. */
  class Source {
    var text: string

    constructor()
      ensures text == ""
    {
      text := "";
    }

    /** str_append. */
    method Append(s: string)
      modifies this
      ensures text == old(text) + s
    {
      text := text + s;
    }
  }

  /** The indentation loop: n spaces, one at a time. */
  method AppendSpaces(sb: Source, n: nat)
    modifies sb
    ensures sb.text == old(sb.text) + JsbSpec.Spaces(n)
  {
    var i := 0;
    while i < n
      invariant i <= n
      invariant sb.text == old(sb.text) + JsbSpec.Spaces(i)
    {
      sb.Append(" ");
      assert JsbSpec.Spaces(i + 1) == JsbSpec.Spaces(i) + " ";
      i := i + 1;
    }
  }

  /**
   * The indentation loop with `--indent` as the argument: the test
   * decrements the variable before comparing, on every pass.
   */
  method AppendSpacesCountingDown(sb: Source, indent: nat)
    modifies sb
    ensures sb.text == old(sb.text) + JsbSpec.Spaces(CountDownSpaces(0, indent))
  {
    var v: int := indent;
    var i := 0;
    v := v - 1;
    while i < v * 4
      invariant 0 <= i
      invariant i + CountDownSpaces(i, v + 1) == CountDownSpaces(0, indent)
      invariant sb.text == old(sb.text) + JsbSpec.Spaces(i)
      decreases v * 4 - i
    {
      sb.Append(" ");
      assert JsbSpec.Spaces(i + 1) == JsbSpec.Spaces(i) + " ";
      i := i + 1;
      v := v - 1;
    }
  }

  /** sb_cat_line: the indentation, the text and a newline. */
  method CatLine(sb: Source, text: Code -> string, l: Line)
    modifies sb
    ensures sb.text == old(sb.text) + LineText(text, l)
  {
    match l {
      case Line(k, _) =>
        AppendSpaces(sb, k * 4);
      case PreDecrement(v, _) =>
        AppendSpacesCountingDown(sb, v);
    }
    sb.Append(text(l.code));
    sb.Append("\n");
  }

  /** A run of sb_cat_line calls, one per line of the block. */
  method EmitLines(sb: Source, text: Code -> string, ls: seq<Line>)
    modifies sb
    ensures sb.text == old(sb.text) + Render(text, ls)
  {
    var i := 0;
    while i < |ls|
      invariant i <= |ls|
      invariant sb.text == old(sb.text) + Render(text, ls[..i])
    {
      CatLine(sb, text, ls[i]);
      RenderSnoc(text, ls[..i], ls[i]);
      Concat3(old(sb.text), Render(text, ls[..i]), LineText(text, ls[i]));
      assert ls[..i + 1] == ls[..i] + [ls[i]];
      i := i + 1;
    }
    assert ls[..i] == ls;
  }

  /** gen_parse_field_body. */
  method GenParseFieldBody(sb: Source, text: Code -> string, f: Field, indent: nat)
    modifies sb
    ensures sb.text == old(sb.text) + Render(text, ParseFieldLines(f, indent))
  {
    EmitLines(sb, text, ParseFieldLines(f, indent));
  }

  /** gen_stringify_field. */
  method GenStringifyField(sb: Source, text: Code -> string, f: Field, indent: nat)
    modifies sb
    ensures sb.text == old(sb.text) + Render(text, StringifyFieldLines(f, indent))
  {
    EmitLines(sb, text, StringifyFieldLines(f, indent));
  }

  /** One dispatch clause: the key test at depth 2, then the field's statements. */
  lemma {:induction false} ClauseStep(text: Code -> string, fs: seq<Field>, i: nat)
    requires i < |fs| && !fs[i].isCounterField
    ensures Render(text, Dispatch(fs, i)) + LineText(text, Line(2, KeyTest(i > 0, KeyName(fs[i])))) +
            Render(text, ParseFieldLines(fs[i], 3)) ==
            Render(text, Dispatch(fs, i + 1))
  {
    var test := Line(2, KeyTest(i > 0, KeyName(fs[i])));
    RenderAppend(text, Dispatch(fs, i) + [test], ParseFieldLines(fs[i], 3));
    RenderSnoc(text, Dispatch(fs, i), test);
  }

  lemma {:induction false} Concat3(o: string, a: string, b: string)
    ensures o + (a + b) == o + a + b
  {
  }

  lemma {:induction false} Concat4(o: string, a: string, b: string, c: string)
    ensures o + (a + b + c) == o + a + b + c
  {
  }

  /** Writing the indentation, then the text and its newline, writes the line. */
  lemma {:induction false} JoinLine(text: Code -> string, o: string, l: Line)
    ensures o + JsbSpec.Spaces(Indentation(l)) + (text(l.code) + "\n") == o + LineText(text, l)
  {
  }

  /** A routine followed by more lines renders as its header and opening lines, a middle part, and the rest. */
  lemma {:induction false} RoutineRender(text: Code -> string, header: Code, open: seq<Line>, mid: seq<Line>,
                                         end: seq<Line>, rest: seq<Line>)
    ensures Render(text, Routine(header, open + mid + end) + rest) ==
            Render(text, [Line(0, header)] + open) + Render(text, mid) + Render(text, end + [Line(0, Close)] + rest)
  {
    var lead := [Line(0, header)] + open;
    assert Routine(header, open + mid + end) + rest == (lead + mid) + (end + [Line(0, Close)] + rest);
    RenderAppend(text, lead + mid, end + [Line(0, Close)] + rest);
    RenderAppend(text, lead, mid);
  }

  /** One clause of the key loop: the key test, the field's statements, then the indentation of what follows. */
  method EmitClause(sb: Source, text: Code -> string, f: Field, later: bool)
    modifies sb
    ensures sb.text == old(sb.text) + (text(KeyTest(later, KeyName(f))) + "\n") + Render(text, ParseFieldLines(f, 3)) +
                       JsbSpec.Spaces(8)
  {
    sb.Append(text(KeyTest(later, KeyName(f))) + "\n");
    GenParseFieldBody(sb, text, f, 3);
    AppendSpaces(sb, 8);
  }

  /** The text one clause adds after the clauses before it, with the indentation that precedes the next. */
  lemma {:induction false} ClauseText(text: Code -> string, o: string, fs: seq<Field>, i: nat)
    requires i < |fs| && !fs[i].isCounterField
    ensures o + Render(text, Dispatch(fs, i)) + JsbSpec.Spaces(8) + (text(KeyTest(i > 0, KeyName(fs[i]))) + "\n") +
            Render(text, ParseFieldLines(fs[i], 3)) + JsbSpec.Spaces(8) ==
            o + Render(text, Dispatch(fs, i + 1)) + JsbSpec.Spaces(8)
  {
    var test := Line(2, KeyTest(i > 0, KeyName(fs[i])));
    var d, body := Render(text, Dispatch(fs, i)), Render(text, ParseFieldLines(fs[i], 3));
    assert o + d + JsbSpec.Spaces(8) + (text(test.code) + "\n") == o + d + LineText(text, test) by {
      JoinLine(text, o + d, test);
    }
    ClauseStep(text, fs, i);
    Concat4(o, d, LineText(text, test), body);
  }

  /**
   * The key loop of `_parse_<simple>`.  It writes the depth-2 indentation
   * before the first test and after each field body, so a counter field,
   * which it skips, writes nothing at all.
   */
  method EmitClauses(sb: Source, text: Code -> string, fs: seq<Field>)
    modifies sb
    ensures sb.text == old(sb.text) + Render(text, Dispatch(fs, |fs|)) + JsbSpec.Spaces(8)
  {
    AppendSpaces(sb, 8);
    var i := 0;
    while i < |fs|
      invariant i <= |fs|
      invariant sb.text == old(sb.text) + Render(text, Dispatch(fs, i)) + JsbSpec.Spaces(8)
    {
      EmitDispatchStep(sb, text, fs, i, old(sb.text));
      i := i + 1;
    }
  }

  /** One turn of the key loop: the clause of field i, unless it is a counter. */
  method EmitDispatchStep(sb: Source, text: Code -> string, fs: seq<Field>, i: nat, ghost o: string)
    requires i < |fs|
    requires sb.text == o + Render(text, Dispatch(fs, i)) + JsbSpec.Spaces(8)
    modifies sb
    ensures sb.text == o + Render(text, Dispatch(fs, i + 1)) + JsbSpec.Spaces(8)
  {
    if !fs[i].isCounterField {
      EmitClause(sb, text, fs[i], i > 0);
      ClauseText(text, o, fs, i);
    }
  }

  /** Lines followed by the indentation and text of one more depth-2 line render as all of them. */
  lemma {:induction false} LastLine(text: Code -> string, o: string, ls: seq<Line>, l: Line)
    requires l == Line(2, l.code)
    ensures o + Render(text, ls) + JsbSpec.Spaces(8) + (text(l.code) + "\n") == o + Render(text, ls + [l])
  {
    JoinLine(text, o + Render(text, ls), l);
    RenderSnoc(text, ls, l);
  }

  /** The key loop of `_parse_<simple>` and its fallthrough clause. */
  method EmitDispatch(sb: Source, text: Code -> string, fs: seq<Field>)
    modifies sb
    ensures sb.text == old(sb.text) + Render(text, Dispatch(fs, |fs|) + [Line(2, FallThrough(|fs| > 0))])
  {
    EmitClauses(sb, text, fs);
    sb.Append(text(FallThrough(|fs| > 0)) + "\n");
    LastLine(text, old(sb.text), Dispatch(fs, |fs|), Line(2, FallThrough(|fs| > 0)));
  }

  /** The parse half of generate_model_code. */
  method GenerateParse(sb: Source, text: Code -> string, m: Model)
    modifies sb
    ensures sb.text == old(sb.text) + Render(text, ParseLines(m))
  {
    var fs := m.fields;
    var lead := [Line(0, ParseObjectHeader(m.simpleName, m.name))] + ParseOpen;
    var dispatch := Dispatch(fs, |fs|) + [Line(2, FallThrough(|fs| > 0))];
    var rest := ParseObjectEnd + [Line(0, Close)] + ParseRest(m);
    EmitLines(sb, text, lead);
    EmitDispatch(sb, text, fs);
    EmitLines(sb, text, rest);
    RoutineRender(text, ParseObjectHeader(m.simpleName, m.name), ParseOpen, dispatch, ParseObjectEnd, ParseRest(m));
    assert ParseOpen + Dispatch(fs, |fs|) + [Line(2, FallThrough(|fs| > 0))] + ParseObjectEnd == ParseOpen + dispatch + ParseObjectEnd;
    Concat4(old(sb.text), Render(text, lead), Render(text, dispatch), Render(text, rest));
  }

  /** The field loop of `_stringify_<simple>`: every field in declaration order at depth 2. */
  method EmitFields(sb: Source, text: Code -> string, fs: seq<Field>)
    modifies sb
    ensures sb.text == old(sb.text) + Render(text, StringifyFields(fs, |fs|))
  {
    assert sb.text == old(sb.text) + Render(text, StringifyFields(fs, 0)) by {
      assert old(sb.text) + [] == old(sb.text);
    }
    var i := 0;
    while i < |fs|
      invariant i <= |fs|
      invariant sb.text == old(sb.text) + Render(text, StringifyFields(fs, i))
    {
      EmitFieldsStep(sb, text, fs, i, old(sb.text));
      i := i + 1;
    }
  }

  /** One turn of the field loop: the lines of field i. */
  method EmitFieldsStep(sb: Source, text: Code -> string, fs: seq<Field>, i: nat, ghost o: string)
    requires i < |fs|
    requires sb.text == o + Render(text, StringifyFields(fs, i))
    modifies sb
    ensures sb.text == o + Render(text, StringifyFields(fs, i + 1))
  {
    GenStringifyField(sb, text, fs[i], 2);
    RenderAppend(text, StringifyFields(fs, i), StringifyFieldLines(fs[i], 2));
    Concat3(o, Render(text, StringifyFields(fs, i)), Render(text, StringifyFieldLines(fs[i], 2)));
  }

  /** The stringify half of generate_model_code. */
  method GenerateStringify(sb: Source, text: Code -> string, m: Model)
    modifies sb
    ensures sb.text == old(sb.text) + Render(text, StringifyLines(m))
  {
    var fs := m.fields;
    var lead := [Line(0, StringifyObjectHeader(m.simpleName, m.name))] + StringifyOpen;
    var rest := StringifyObjectEnd + [Line(0, Close)] + StringifyRest(m);
    EmitLines(sb, text, lead);
    EmitFields(sb, text, fs);
    EmitLines(sb, text, rest);
    RoutineRender(text, StringifyObjectHeader(m.simpleName, m.name), StringifyOpen, StringifyFields(fs, |fs|),
                  StringifyObjectEnd, StringifyRest(m));
    Concat4(old(sb.text), Render(text, lead), Render(text, StringifyFields(fs, |fs|)), Render(text, rest));
  }

  /** Rendering the parse part and the stringify part, each present or not. */
  lemma {:induction false} RenderEither(text: Code -> string, p: seq<Line>, q: seq<Line>, hasP: bool, hasQ: bool)
    ensures Render(text, (if hasP then p else []) + (if hasQ then q else [])) ==
            (if hasP then Render(text, p) else []) + (if hasQ then Render(text, q) else [])
  {
    RenderAppend(text, if hasP then p else [], if hasQ then q else []);
  }

  /** generate_model_code. */
  method GenerateModelCode(sb: Source, text: Code -> string, m: Model)
    modifies sb
    ensures sb.text == old(sb.text) + Render(text, ModelLines(m))
  {
    ghost var p := if m.parse then Render(text, ParseLines(m)) else [];
    ghost var q := if m.stringify then Render(text, StringifyLines(m)) else [];
    if m.parse {
      GenerateParse(sb, text, m);
    }
    assert sb.text == old(sb.text) + p;
    ghost var half := sb.text;
    if m.stringify {
      GenerateStringify(sb, text, m);
    }
    assert sb.text == half + q;
    RenderEither(text, ParseLines(m), StringifyLines(m), m.parse, m.stringify);
    Concat3(old(sb.text), p, q);
  }

  /** The includes every generated file starts with. */
  const Preamble: string := "#include \"jsb.h\"\n#include \"jsp.h\"\n\n"

  /** The code of several models, one after the other. */
  function AllLines(models: seq<Model>): (r: seq<Line>)
  {
    if |models| == 0 then [] else AllLines(models[..|models| - 1]) + ModelLines(models[|models| - 1])
  }

  /** The loop of generate_all_code: each model's code in turn. */
  method EmitModels(sb: Source, text: Code -> string, models: seq<Model>)
    modifies sb
    ensures sb.text == old(sb.text) + Render(text, AllLines(models))
  {
    var i := 0;
    while i < |models|
      invariant i <= |models|
      invariant sb.text == old(sb.text) + Render(text, AllLines(models[..i]))
    {
      GenerateModelCode(sb, text, models[i]);
      assert models[..i + 1][..i] == models[..i];
      RenderAppend(text, AllLines(models[..i]), ModelLines(models[i]));
      Concat3(old(sb.text), Render(text, AllLines(models[..i])), Render(text, ModelLines(models[i])));
      i := i + 1;
    }
    assert models[..i] == models;
  }

  /** generate_all_code, up to the file write: the includes, then each model's code in order, spelled as jsgen spells it. */
  method GenerateAllCode(models: seq<Model>) returns (code: string)
    ensures code == Preamble + Render(CodeText, AllLines(models))
  {
    var sb := new Source();
    sb.Append(Preamble);
    EmptyConcat(Preamble);
    EmitModels(sb, CodeText, models);
    code := sb.text;
  }

  lemma {:induction false} EmptyConcat(s: string)
    ensures "" + s == s
  {
  }

  /** The generated file declares the routines of each model in turn, models in the order they were read. */
  lemma {:induction false} AllDeclarations(models: seq<Model>, i: nat)
    requires i < |models|
    ensures Declarations(AllLines(models[..i + 1])) == Declarations(AllLines(models[..i])) + Declarations(ModelLines(models[i]))
  {
    assert models[..i + 1][..i] == models[..i];
    DeclarationsAppend(AllLines(models[..i]), ModelLines(models[i]));
  }
}
