/**
 * What the JSON builder of jsb.h does, on values: the escaping of strings,
 * the decimal text of integers, the growth rule of the character buffer,
 * and one function per builder call that gives the new document state, the
 * text appended and the return code.  The class in jsb.dfy is proved to
 * behave as these functions say.
 */
module JsbSpec {
  import opened Wrappers
  import opened Strings

  /** JSB_MAX_NESTING: the length of the state stack. */
  const MaxNesting: nat := 64
  /** JSB_SMIN_CAPACITY: the smallest buffer capacity. */
  const MinCapacity: nat := 32

  /** The backspace character '\b'. */
  const Backspace: char := '\U{8}'

  /** JsbState. */
  datatype State = Start | Array | Object | ObjectKey | End

  /** The growth of jsb_srealloc from capacity `c`: doubling until at least `n`. */
  function Doubling(c: nat, n: nat): (r: nat)
    requires c > 0
    ensures r >= n && r >= c
    ensures c < n ==> r < 2 * n
    decreases if c < n then n - c else 0
  {
    if c >= n then c else Doubling(2 * c, n)
  }

  /**
   * The capacity jsb_srealloc leaves for a request of `req` bytes: unchanged
   * when it suffices, else doubled from the capacity (from 32 when it is 0)
   * until it reaches max(req, 32).
   */
  function Grow(cap: nat, req: nat): (r: nat)
    ensures r >= req && r >= cap
    ensures req <= cap ==> r == cap
    ensures req > cap ==> MinCapacity <= r < 2 * (if req < MinCapacity then MinCapacity else req)
  {
    if req <= cap then cap
    else Doubling(if cap == 0 then MinCapacity else cap, if req < MinCapacity then MinCapacity else req)
  }

  /**
   * What jsb_escaped_nstring puts in the buffer for one byte: newline and
   * tab as two-character escapes, a quote or backslash behind a backslash,
   * nothing for backspace and carriage return, and nothing for NUL (it is
   * written but the count does not advance past it); any other byte as is.
   */
  function EscapeChar(c: char): (r: string)
  {
    if c == '\n' then "\\n"
    else if c == '\t' then "\\t"
    else if c == '"' || c == '\\' then ['\\', c]
    else if c == Backspace || c == '\r' || c == '\0' then ""
    else [c]
  }

  /** The escaped body of `s`: EscapeChar of each byte in turn. */
  function Escape(s: string): (r: string)
  {
    if s == [] then [] else EscapeChar(s[0]) + Escape(s[1..])
  }

  /** The escaped string wrapped in double quotes. */
  function Quoted(s: string): (r: string)
    ensures |r| >= 2 && r[0] == '"' && r[|r| - 1] == '"'
  {
    "\"" + Escape(s) + "\""
  }

  /** Escape works byte by byte from the front: the step of the escaping loop. */
  lemma {:induction false} EscapeSnoc(s: string, c: char)
    ensures Escape(s + [c]) == Escape(s) + EscapeChar(c)
  {
    if s != [] {
      assert (s + [c])[1..] == s[1..] + [c];
      EscapeSnoc(s[1..], c);
    } else {
      assert [] + [c] == [c];
    }
  }

  /** The bytes escaping keeps: all but backspace, carriage return and NUL. */
  function Kept(s: string): (r: string)
    ensures |r| <= |s|
  {
    if s == [] then []
    else if s[0] == Backspace || s[0] == '\r' || s[0] == '\0' then Kept(s[1..])
    else [s[0]] + Kept(s[1..])
  }

  /**
   * A reader of a JSON string body: the escapes \n, \t, \" and \\ stand for
   * their characters; a bare quote or a dangling or unknown escape is an error.
   */
  function Unescape(e: string): (r: Option<string>)
  {
    if e == [] then Some([])
    else if e[0] == '"' then None
    else if e[0] != '\\' then
      (match Unescape(e[1..]) case None => None case Some(t) => Some([e[0]] + t))
    else if |e| < 2 then None
    else
      var c := if e[1] == 'n' then '\n' else if e[1] == 't' then '\t' else e[1];
      if e[1] == 'n' || e[1] == 't' || e[1] == '"' || e[1] == '\\' then
        (match Unescape(e[2..]) case None => None case Some(t) => Some([c] + t))
      else None
  }

  /** Reading back an escaped string gives the bytes escaping keeps: no quote ends it early, no escape is lost. */
  lemma {:induction false} UnescapeEscape(s: string)
    ensures Unescape(Escape(s)) == Some(Kept(s))
  {
    if s != [] {
      var c := s[0];
      var rest := Escape(s[1..]);
      UnescapeEscape(s[1..]);
      var e := EscapeChar(c) + rest;
      assert Escape(s) == e;
      if c == '\n' || c == '\t' || c == '"' || c == '\\' {
        assert e[0] == '\\' && e[1] == (if c == '\n' then 'n' else if c == '\t' then 't' else c);
        assert e[2..] == rest;
        assert Kept(s) == [c] + Kept(s[1..]);
      } else if c == Backspace || c == '\r' || c == '\0' {
        assert e == rest;
      } else {
        assert e[0] == c && e[1..] == rest;
        assert Kept(s) == [c] + Kept(s[1..]);
      }
    }
  }

  /** The decimal digits of `n`, most significant first. */
  function NatText(n: nat): (r: string)
    ensures |r| > 0
    ensures forall i :: 0 <= i < |r| ==> '0' <= r[i] <= '9'
  {
    var d := ['0' + (n % 10) as char];
    if n < 10 then d else NatText(n / 10) + d
  }

  /** What snprintf's "%d" writes for `v`: a minus sign for negatives, then the digits of |v|. */
  function IntText(v: int): (r: string)
    ensures |r| > 0 && '\0' !in r
  {
    if v < 0 then "-" + NatText(-v) else NatText(v)
  }

  /** The value of a string of decimal digits, read from the front. */
  function ParseNat(s: string): (n: nat)
  {
    if s == [] then 0
    else
      var d := s[|s| - 1] as int - '0' as int;
      ParseNat(s[..|s| - 1]) * 10 + (if 0 <= d < 10 then d else 0)
  }

  /** The value of IntText's output read back. */
  function ParseInt(s: string): (v: int)
  {
    if s != [] && s[0] == '-' then 0 - ParseNat(s[1..]) else ParseNat(s)
  }

  lemma {:induction false} ParseNatText(n: nat)
    ensures ParseNat(NatText(n)) == n
  {
    var t := NatText(n);
    if n >= 10 {
      ParseNatText(n / 10);
      assert t[..|t| - 1] == NatText(n / 10);
    }
  }

  /** The integer text reads back as the integer. */
  lemma IntTextRoundTrip(v: int)
    ensures ParseInt(IntText(v)) == v
  {
    if v < 0 {
      ParseNatText(-v);
      assert IntText(v)[1..] == NatText(-v);
    } else {
      ParseNatText(v);
    }
  }

  /** Decimal text of a few small values. */
  lemma IntTextExamples()
    ensures IntText(0) == "0" && IntText(7) == "7" && IntText(-42) == "-42"
    ensures IntText(-2048) == "-2048"
  {
    assert NatText(4) == "4";
    assert NatText(42) == "42";
    assert NatText(20) == "20";
    assert NatText(204) == "204";
    assert NatText(2048) == "2048";
  }

  /** The decimal text of 214748364, the digits INT_MIN and INT_MAX share. */
  lemma SharedDigits()
    ensures NatText(214748364) == "214748364"
  {
    assert NatText(21) == "21";
    assert NatText(214) == "214";
    assert NatText(2147) == "2147";
    assert NatText(21474) == "21474";
    assert NatText(214748) == "214748";
    assert NatText(2147483) == "2147483";
    assert NatText(21474836) == "21474836";
  }

  /** Decimal text of the extremes of a 32-bit int, INT_MIN and INT_MAX. */
  lemma IntTextExtremes()
    ensures IntText(-2147483648) == "-2147483648"
    ensures IntText(2147483647) == "2147483647"
  {
    SharedDigits();
    assert NatText(2147483648) == "2147483648";
    assert NatText(2147483647) == "2147483647";
  }

  /**
   * The builder state the calls depend on: the state stack up to `level`
   * (state[0..level]), the flags, the indentation width and the buffer text
   * items[0..count).
   */
  datatype Doc = Doc(stack: seq<State>, isFirst: bool, isKey: bool, pp: int, out: string)

  /** A Doc the calls can reach: state[0] is START or END, every open level an ARRAY or OBJECT. */
  ghost predicate Shaped(stack: seq<State>)
  {
    1 <= |stack| <= MaxNesting &&
    (stack[0] == Start || stack[0] == End) &&
    forall i :: 1 <= i < |stack| ==> stack[i] == Array || stack[i] == Object
  }

  /** Opening a level keeps the shape. */
  lemma ShapedPush(stack: seq<State>, kind: State)
    requires Shaped(stack) && |stack| < MaxNesting && (kind == Array || kind == Object)
    ensures Shaped(stack + [kind])
  {
    var t := stack + [kind];
    forall i | 1 <= i < |t| ensures t[i] == Array || t[i] == Object {
      if i < |stack| {
        assert t[i] == stack[i];
      }
    }
  }

  /** Closing a level above level 0 keeps the shape. */
  lemma ShapedPop(stack: seq<State>)
    requires Shaped(stack) && |stack| >= 2
    ensures Shaped(stack[..|stack| - 1])
  {
    var t := stack[..|stack| - 1];
    forall i | 1 <= i < |t| ensures t[i] == Array || t[i] == Object {
      assert t[i] == stack[i];
    }
  }

  /** Between calls: Shaped, and `is_first` is false at level 0 (only begin_object and begin_array set it there). */
  ghost predicate Wf(d: Doc)
  {
    Shaped(d.stack) && (|d.stack| == 1 ==> !d.isFirst)
  }

  function Level(d: Doc): nat
    requires |d.stack| > 0
  {
    |d.stack| - 1
  }

  function Top(d: Doc): State
    requires |d.stack| > 0
  {
    d.stack[|d.stack| - 1]
  }

  /** jsb_check_val: a value goes in an array, after a key in an object, or at the start of a document. */
  predicate CheckVal(d: Doc)
    requires |d.stack| > 0
  {
    Top(d) == Array || (Top(d) == Object && d.isKey) || (Top(d) == Start && d.isFirst)
  }

  /** The run of `n` spaces jsb_pretty_print_ch indents with; none when `n` is not positive. */
  function Spaces(n: int): (r: string)
    ensures |r| == (if n < 0 then 0 else n)
    ensures forall i :: 0 <= i < |r| ==> r[i] == ' '
  {
    seq(if n < 0 then 0 else n, _ => ' ')
  }

  /** jsb_pretty_print_ch: a newline and level*pp spaces, only when pretty printing and no key is pending. */
  function PrettyBreak(level: nat, pp: int, isKey: bool): (r: string)
  {
    if pp != 0 && !isKey then "\n" + Spaces(level * pp) else ""
  }

  /** What every writer puts before its item: a comma unless it is the first item, then the pretty-print break. */
  function Lead(d: Doc): (r: string)
    requires |d.stack| > 0
    ensures |r| > 0 && r[0] == ',' <==> !d.isFirst
  {
    (if d.isFirst then "" else ",") + PrettyBreak(Level(d), d.pp, d.isKey)
  }

  datatype Outcome = Outcome(doc: Doc, ret: int)

  /** _jsb_init: an empty buffer, level 0 in state START, first item pending. */
  function Init(d: Doc): (r: Doc)
    ensures Shaped(r.stack) && Level(r) == 0 && r.out == [] && CheckVal(r)
  {
    Doc([Start], true, d.isKey, d.pp, "")
  }

  /**
   * jsb_begin_object (`kind` OBJECT, `open` '{') and jsb_begin_array (ARRAY,
   * '['): at level 0 a fresh document first; then, if a value is allowed,
   * the lead and the bracket, and a new level of state `kind`.  The stack
   * must have room for the new level.
   */
  function Open(d: Doc, kind: State, open: char): (r: Outcome)
    requires Wf(d) && Level(d) < MaxNesting - 1 && (kind == Array || kind == Object)
    ensures Wf(r.doc)
    ensures r.ret == 0 <==> Level(d) == 0 || CheckVal(d)
    ensures r.ret != 0 ==> r.doc == d
    ensures r.ret == 0 ==> r.doc.stack[..|r.doc.stack| - 1] == (if Level(d) == 0 then [Start] else d.stack)
    ensures r.ret == 0 ==> Top(r.doc) == kind && r.doc.isFirst && !r.doc.isKey
    ensures r.ret == 0 && Level(d) == 0 ==> r.doc.out == PrettyBreak(0, d.pp, d.isKey) + [open]
    ensures r.ret == 0 && Level(d) > 0 ==> r.doc.out == d.out + Lead(d) + [open]
  {
    var d1 := if Level(d) == 0 then Init(d) else d;
    if !CheckVal(d1) then Outcome(d1, -1)
    else Outcome(Doc(d1.stack + [kind], true, false, d1.pp, d1.out + Lead(d1) + [open]), 0)
  }

  /**
   * jsb_end_object (`kind` OBJECT, `close` '}') and jsb_end_array (ARRAY,
   * ']'): refused unless the top state is `kind` (and, for an object, the
   * level is at least 1); else the level closes with the pretty-print
   * break at the outer level and the bracket, and the document ends when
   * level 0 is reached.
   */
  function Close(d: Doc, kind: State, close: char): (r: Outcome)
    requires Wf(d) && (kind == Array || kind == Object)
    ensures Wf(r.doc)
    ensures r.ret == 0 <==> Level(d) >= 1 && Top(d) == kind
    ensures r.ret != 0 ==> r.doc == d
    ensures r.ret == 0 ==> Level(r.doc) == Level(d) - 1 && !r.doc.isFirst && r.doc.isKey == d.isKey
    ensures r.ret == 0 && Level(r.doc) == 0 ==> r.doc.stack == [End]
    ensures r.ret == 0 ==> r.doc.out == d.out + PrettyBreak(Level(d) - 1, d.pp, d.isKey) + [close]
  {
    if (kind == Object && Level(d) < 1) || Top(d) != kind then Outcome(d, -1)
    else
      var inner := d.stack[..|d.stack| - 1];
      var out := d.out + PrettyBreak(|inner| - 1, d.pp, d.isKey) + [close];
      var stack := if |inner| == 1 then [End] else inner;
      Outcome(Doc(stack, false, d.isKey, d.pp, out), 0)
  }

  /**
   * jsb_key: refused unless the top state is OBJECT with no key pending;
   * else the lead, the quoted key (up to its NUL) and ": ", with a space
   * in compact mode too, and the key is pending.
   */
  function Key(d: Doc, k: string): (r: Outcome)
    requires Wf(d)
    ensures Wf(r.doc)
    ensures r.ret == 0 <==> Top(d) == Object && !d.isKey
    ensures r.ret != 0 ==> r.doc == d
    ensures r.ret == 0 ==> r.doc.stack == d.stack && r.doc.isFirst && r.doc.isKey
    ensures r.ret == 0 ==> r.doc.out == d.out + Lead(d) + Quoted(CStr(k)) + ": "
  {
    if Top(d) != Object || d.isKey then Outcome(d, -1)
    else Outcome(d.(isFirst := true, isKey := true, out := d.out + Lead(d) + Quoted(CStr(k)) + ": "), 0)
  }

  /**
   * The value writers jsb_nstring, jsb_int, jsb_bool and jsb_null: refused
   * unless jsb_check_val allows a value; else the lead and `text`, and the
   * next item is neither first nor after a key.
   */
  function Value(d: Doc, text: string): (r: Outcome)
    requires Wf(d)
    ensures Wf(r.doc)
    ensures r.ret == 0 <==> CheckVal(d)
    ensures r.ret != 0 ==> r.doc == d
    ensures r.ret == 0 ==> r.doc.stack == d.stack && !r.doc.isFirst && !r.doc.isKey
    ensures r.ret == 0 ==> r.doc.out == d.out + Lead(d) + text
  {
    if !CheckVal(d) then Outcome(d, -1)
    else Outcome(d.(isFirst := false, isKey := false, out := d.out + Lead(d) + text), 0)
  }

  /** The text jsb_nstring writes: `null` for a NULL string, else the first `len` bytes quoted. */
  function StringText(str: Option<string>, len: nat): (r: string)
    requires str.Some? ==> len <= |str.value|
    ensures str.None? ==> r == "null"
    ensures str.Some? ==> r == Quoted(str.value[..len]) && r[0] == '"'
  {
    if str.None? then "null" else Quoted(str.value[..len])
  }

  /** The text jsb_bool writes. */
  function BoolText(b: bool): (r: string)
  {
    if b then "true" else "false"
  }

  /** A zero-initialised Jsb with indentation width `pp`. */
  function Fresh(pp: int): (d: Doc)
    ensures Wf(d)
  {
    Doc([Start], false, false, pp, "")
  }

  /**
   * A value is never accepted at level 0: before the first container the
   * start state has no first item pending, and after the last one the
   * state is END.  Only begin_object and begin_array start a document.
   */
  lemma NoTopLevelValue(d: Doc, text: string)
    requires Wf(d) && Level(d) == 0
    ensures Value(d, text) == Outcome(d, -1)
    ensures Key(d, text) == Outcome(d, -1)
  {
  }

  /** Closing the container just opened inside another one restores the stack. */
  lemma CloseUndoesOpen(d: Doc, kind: State, open: char, close: char)
    requires Wf(d) && Level(d) < MaxNesting - 1 && (kind == Array || kind == Object)
    requires Level(d) > 0 && Open(d, kind, open).ret == 0
    ensures Close(Open(d, kind, open).doc, kind, close).ret == 0
    ensures Close(Open(d, kind, open).doc, kind, close).doc.stack == d.stack
  {
    var b := Open(d, kind, open).doc;
    assert b.stack == d.stack + [kind];
    assert b.stack[..|b.stack| - 1] == d.stack;
  }

  /** The C strings "id" and "ok" escape to themselves. */
  lemma PlainKeys()
    ensures Quoted(CStr("id")) == "\"id\"" && Quoted(CStr("ok")) == "\"ok\""
  {
    assert "id"[1..] == "d" && "ok"[1..] == "k";
    assert CStr("id") == "id" && CStr("ok") == "ok";
    assert Escape("id") == "id" && Escape("ok") == "ok";
  }

  /** Opening an object at the start: no comma, a break only when pretty printing. */
  lemma OpenStep(pp: int)
    ensures Open(Fresh(pp), Object, '{') == Outcome(Doc([Start, Object], true, false, pp, (if pp != 0 then "\n" else "") + "{"), 0)
  {
    assert Spaces(0) == "";
  }

  /** A key as first item, in compact mode. */
  lemma KeyStep(k: string, out: string)
    requires k == "id" || k == "ok"
    ensures Key(Doc([Start, Object], true, false, 0, out), k) == Outcome(Doc([Start, Object], true, true, 0, out + "\"" + k + "\": "), 0)
  {
    PlainKeys();
  }

  /** A key after an item, in compact mode: a comma first. */
  lemma NextKeyStep(k: string, out: string)
    requires k == "id" || k == "ok"
    ensures Key(Doc([Start, Object], false, false, 0, out), k) == Outcome(Doc([Start, Object], true, true, 0, out + ",\"" + k + "\": "), 0)
  {
    PlainKeys();
  }

  /** A value after a key: no comma and no break. */
  lemma ValueStep(pp: int, out: string, text: string)
    ensures Value(Doc([Start, Object], true, true, pp, out), text) == Outcome(Doc([Start, Object], false, false, pp, out + text), 0)
  {
  }

  /** Closing the outermost object ends the document. */
  lemma CloseStep(pp: int, out: string)
    ensures Close(Doc([Start, Object], false, false, pp, out), Object, '}') == Outcome(Doc([End], false, false, pp, out + (if pp != 0 then "\n" else "") + "}"), 0)
  {
    assert Spaces(0) == "";
  }

  /** Compact example, the opening brace: no comma, no break. */
  lemma CompactOpen()
    ensures Open(Fresh(0), Object, '{') == Outcome(Doc([Start, Object], true, false, 0, "{"), 0)
  {
    OpenStep(0);
  }

  /** Compact example, first key: no comma, no break. */
  lemma CompactFirstKey()
    ensures Key(Doc([Start, Object], true, false, 0, "{"), "id")
         == Outcome(Doc([Start, Object], true, true, 0, "{\"id\": "), 0)
  {
    KeyStep("id", "{");
  }

  /** Compact example, first value: straight after the colon and its space. */
  lemma CompactFirstValue()
    ensures Value(Doc([Start, Object], true, true, 0, "{\"id\": "), IntText(7))
         == Outcome(Doc([Start, Object], false, false, 0, "{\"id\": 7"), 0)
  {
    assert IntText(7) == "7";
    ValueStep(0, "{\"id\": ", "7");
  }

  /** Compact example, second key: a comma with no space after it. */
  lemma CompactSecondKey()
    ensures Key(Doc([Start, Object], false, false, 0, "{\"id\": 7"), "ok")
         == Outcome(Doc([Start, Object], true, true, 0, "{\"id\": 7,\"ok\": "), 0)
  {
    NextKeyStep("ok", "{\"id\": 7");
  }

  /** Compact example, second value. */
  lemma CompactSecondValue()
    ensures Value(Doc([Start, Object], true, true, 0, "{\"id\": 7,\"ok\": "), BoolText(true))
         == Outcome(Doc([Start, Object], false, false, 0, "{\"id\": 7,\"ok\": true"), 0)
  {
    ValueStep(0, "{\"id\": 7,\"ok\": ", "true");
  }

  /** Compact example, the closing brace ends the document. */
  lemma CompactClose()
    ensures Close(Doc([Start, Object], false, false, 0, "{\"id\": 7,\"ok\": true"), Object, '}')
         == Outcome(Doc([End], false, false, 0, "{\"id\": 7,\"ok\": true}"), 0)
  {
    CloseStep(0, "{\"id\": 7,\"ok\": true");
  }

  /** The bytes of a small compact document: the space after each colon, none after the comma, END after the brace. */
  lemma CompactExample()
    ensures Close(Value(Key(Value(Key(Open(Fresh(0), Object, '{').doc, "id").doc, IntText(7)).doc, "ok").doc, BoolText(true)).doc, Object, '}')
         == Outcome(Doc([End], false, false, 0, "{\"id\": 7,\"ok\": true}"), 0)
  {
    CompactOpen();
    CompactFirstKey();
    CompactFirstValue();
    CompactSecondKey();
    CompactSecondValue();
    CompactClose();
  }

  /** A key as first item with width 2 at level 1: a newline and two spaces first. */
  lemma PrettyKey()
    ensures Key(Doc([Start, Object], true, false, 2, "\n{"), "id") == Outcome(Doc([Start, Object], true, true, 2, "\n{\n  \"id\": "), 0)
  {
    PlainKeys();
    assert Spaces(2) == "  ";
  }

  /** Pretty example, the opening brace after a newline. */
  lemma PrettyOpen()
    ensures Open(Fresh(2), Object, '{') == Outcome(Doc([Start, Object], true, false, 2, "\n{"), 0)
  {
    OpenStep(2);
  }

  /** Pretty example, the value after the key: no break. */
  lemma PrettyValue()
    ensures Value(Doc([Start, Object], true, true, 2, "\n{\n  \"id\": "), IntText(7))
         == Outcome(Doc([Start, Object], false, false, 2, "\n{\n  \"id\": 7"), 0)
  {
    assert IntText(7) == "7";
    ValueStep(2, "\n{\n  \"id\": ", "7");
  }

  /** Pretty example, the closing brace on a line of its own at level 0. */
  lemma PrettyClose()
    ensures Close(Doc([Start, Object], false, false, 2, "\n{\n  \"id\": 7"), Object, '}')
         == Outcome(Doc([End], false, false, 2, "\n{\n  \"id\": 7\n}"), 0)
  {
    CloseStep(2, "\n{\n  \"id\": 7");
  }

  /** The same shape pretty printed with width 2: a leading newline, no break between a key and its value. */
  lemma PrettyExample()
    ensures Close(Value(Key(Open(Fresh(2), Object, '{').doc, "id").doc, IntText(7)).doc, Object, '}')
         == Outcome(Doc([End], false, false, 2, "\n{\n  \"id\": 7\n}"), 0)
  {
    PrettyOpen();
    PrettyKey();
    PrettyValue();
    PrettyClose();
  }
}
