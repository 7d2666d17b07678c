/**
 * The JSON builder of jsb.h: a growable character buffer (struct
 * jsb_string) and the builder (Jsb) with its fixed state stack, level,
 * flags and indentation width.  Every call is proved to act as the
 * function of the same name in JsbSpec says, on the state Abs() reads
 * off the fields.
 */
module JsonBuilder {
  import opened Wrappers
  import opened Strings
  import opened DynArray
  import opened JsbSpec

  /** struct jsb_string: the allocated block (its length is the capacity) and the count of characters in use. */
  class Buffer {
    var items: array<char>
    var count: nat

    ghost predicate Valid()
      reads this
    {
      count <= items.Length
    }

    /** The buffer text: items[0..count). */
    ghost function Text(): string
      reads this, items
      requires Valid()
    {
      items[..count]
    }

    /** A zero-initialised buffer: no block, nothing in use. */
    constructor ()
      ensures Valid() && Text() == [] && items.Length == 0
    {
      items := new char[0];
      count := 0;
    }

    /** jsb_srealloc: a block of capacity Grow(capacity, req), the old bytes copied over. */
    method Srealloc(req: nat)
      requires Valid()
      modifies this
      ensures Valid() && count == old(count) && Text() == old(Text())
      ensures items.Length == Grow(old(items.Length), req)
      ensures items == old(items) || fresh(items)
    {
      if req <= items.Length {
        return;
      }
      var n := if req < MinCapacity then MinCapacity else req;
      var cap := if items.Length == 0 then MinCapacity else items.Length;
      while cap < n
        invariant cap > 0 && Doubling(cap, n) == Grow(items.Length, req)
        decreases n - cap
      {
        cap := cap * 2;
      }
      var block := new char[cap](_ => '\0');
      CopyInto(block, 0, items[..]);
      assert block[..count] == items[..count];
      items := block;
    }

    /**
     * jsb_sappend: room for two more bytes, then `c` at the count, which
     * advances past it unless `c` is NUL (a NUL only terminates the text).
     */
    method Sappend(c: char)
      requires Valid()
      modifies this, items
      ensures Valid() && Text() == old(Text()) + (if c == '\0' then [] else [c])
      ensures old(count) < items.Length && items[old(count)] == c
      ensures items == old(items) || fresh(items)
    {
      Srealloc(count + 2);
      items[count] := c;
      if c != '\0' {
        count := count + 1;
      }
      assert items[..old(count)] == old(Text());
    }

    /** jsb_sappends: the C string `s` (up to its NUL) appended and a NUL written after it. */
    method Sappends(s: string)
      requires Valid()
      modifies this, items
      ensures Valid() && Text() == old(Text()) + CStr(s)
      ensures count < items.Length && items[count] == '\0'
      ensures items == old(items) || fresh(items)
    {
      var t := CStr(s);
      Srealloc(count + |t| + 1);
      ghost var before := items[..count];
      if |t| > 0 {
        CopyInto(items, count, t);
        count := count + |t|;
      }
      items[count] := '\0';
      forall m | 0 <= m < count ensures items[m] == (before + t)[m] {
        if m >= |before| {
          assert items[|before| + (m - |before|)] == t[m - |before|];
        }
      }
      assert items[..count] == before + t;
    }

    /** jsb_escaped_nstring: the first `len` bytes of `s`, escaped and wrapped in double quotes. */
    method EscapedNString(s: string, len: nat)
      requires Valid() && len <= |s|
      modifies this, items
      ensures Valid() && Text() == old(Text()) + Quoted(s[..len])
      ensures items == old(items) || fresh(items)
    {
      Sappend('"');
      ghost var base := Text();
      var i := 0;
      while i < len
        invariant 0 <= i <= len && Valid()
        invariant Text() == base + Escape(s[..i])
        invariant items == old(items) || fresh(items)
      {
        EscapeOne(s[i]);
        EscapeStep(base, s, i);
        i := i + 1;
      }
      Sappend('"');
      QuotedAfter(old(Text()), s[..len]);
    }

    /** One pass of the escaping loop of jsb_escaped_nstring: the bytes for `c`. */
    method EscapeOne(c: char)
      requires Valid()
      modifies this, items
      ensures Valid() && Text() == old(Text()) + EscapeChar(c)
      ensures items == old(items) || fresh(items)
    {
      if c == '\n' {
        Sappend('\\');
        Sappend('n');
      } else if c == '\t' {
        Sappend('\\');
        Sappend('t');
      } else if c == '"' || c == '\\' {
        Sappend('\\');
        Sappend(c);
      } else if c == Backspace || c == '\r' {
      } else {
        Sappend(c);
      }
    }
  }

  /** One more byte through the escaping loop. */
  lemma EscapeStep(base: string, s: string, i: nat)
    requires i < |s|
    ensures base + Escape(s[..i]) + EscapeChar(s[i]) == base + Escape(s[..i + 1])
  {
    EscapeSnoc(s[..i], s[i]);
    assert s[..i + 1] == s[..i] + [s[i]];
  }

  /** The opening quote, the escaped body and the closing quote make up Quoted. */
  lemma QuotedAfter(t: string, s: string)
    ensures t + "\"" + Escape(s) + "\"" == t + Quoted(s)
  {
  }

  /** Jsb: the buffer, the state stack of JSB_MAX_NESTING entries, the level, the flags and the indentation width. */
  class Jsb {
    const buffer: Buffer
    const state: array<State>
    var level: nat
    var isFirst: bool
    var isKey: bool
    var pp: int

    /** The fields a call can see, stack state[0..level], as a Doc. */
    ghost function Abs(): Doc
      reads this, buffer, buffer.items, state
      requires buffer.Valid() && level < state.Length
    {
      Doc(state[..level + 1], isFirst, isKey, pp, buffer.Text())
    }

    /** The fields hold a Doc of the reachable shape. */
    ghost predicate Ready()
      reads this, buffer, state
    {
      buffer.Valid() && state.Length == MaxNesting && level < MaxNesting && Shaped(state[..level + 1])
    }

    /** Between calls: also no first item pending at level 0, so that Wf(Abs()) holds. */
    ghost predicate Valid()
      reads this, buffer, state
    {
      Ready() && (level == 0 ==> !isFirst)
    }

    /** `Jsb jsb = {.pp = pp};`: everything else zero, so state[0] is START and no item is first. */
    constructor (pp: int)
      ensures Valid() && Abs() == Fresh(pp)
    {
      buffer := new Buffer();
      state := new State[MaxNesting](_ => Start);
      level := 0;
      isFirst := false;
      isKey := false;
      this.pp := pp;
    }

    /** jsb_check_val: 0 when a value is allowed here, else -1. */
    method CheckVal() returns (r: int)
      requires Ready()
      ensures r == if JsbSpec.CheckVal(Abs()) then 0 else -1
    {
      var top := state[level];
      assert top == Top(Abs());
      if top == Array {
        return 0;
      }
      if top == Object && isKey {
        return 0;
      }
      if top == Start && isFirst {
        return 0;
      }
      return -1;
    }

    /** jsb_pretty_print_ch: a newline and level*pp spaces, unless pp is 0 or a key is pending. */
    method PrettyPrint()
      requires Ready()
      modifies buffer, buffer.items
      ensures buffer.Valid() && buffer.Text() == old(buffer.Text()) + PrettyBreak(level, pp, isKey)
      ensures buffer.items == old(buffer.items) || fresh(buffer.items)
    {
      if pp != 0 && !isKey {
        buffer.Sappend('\n');
        var n := level * pp;
        var i := 0;
        while i < n
          invariant 0 <= i && (n <= 0 ==> i == 0) && (n > 0 ==> i <= n)
          invariant buffer.Valid() && buffer.Text() == old(buffer.Text()) + "\n" + Spaces(i)
          invariant buffer.items == old(buffer.items) || fresh(buffer.items)
        {
          buffer.Sappend(' ');
          assert Spaces(i + 1) == Spaces(i) + " ";
          i := i + 1;
        }
      }
    }

    /** The comma unless this is the first item, then the pretty-print break. */
    method Lead()
      requires Ready()
      modifies buffer, buffer.items
      ensures buffer.Valid() && buffer.Text() == old(buffer.Text()) + JsbSpec.Lead(old(Abs()))
      ensures buffer.items == old(buffer.items) || fresh(buffer.items)
    {
      if !isFirst {
        buffer.Sappend(',');
      }
      PrettyPrint();
    }

    /** _jsb_init: empty buffer, level 0 in state START, first item pending. */
    method Init()
      requires Ready()
      modifies this, buffer, state
      ensures Ready() && Abs() == JsbSpec.Init(old(Abs()))
      ensures buffer.items == old(buffer.items)
    {
      buffer.count := 0;
      level := 0;
      state[0] := Start;
      isFirst := true;
    }

    /** _jsb_end: refused above level 0; else a NUL after the text and state[0] END. */
    method EndDocument() returns (r: int)
      requires Ready()
      modifies buffer, buffer.items, state
      ensures Ready() && (r == 0 <==> level == 0)
      ensures r != 0 ==> Abs() == old(Abs())
      ensures r == 0 ==> Abs() == old(Abs()).(stack := [State.End])
      ensures r == 0 ==> buffer.count < buffer.items.Length && buffer.items[buffer.count] == '\0'
      ensures buffer.items == old(buffer.items) || fresh(buffer.items)
    {
      if level != 0 {
        return -1;
      }
      buffer.Sappends("");
      state[0] := State.End;
      r := 0;
    }

    /** jsb_begin_object and jsb_begin_array, for `kind` OBJECT with '{' and ARRAY with '['. */
    method Begin(kind: State, open: char) returns (r: int)
      requires Valid() && level < MaxNesting - 1 && (kind == Array || kind == Object) && open != '\0'
      modifies this, buffer, buffer.items, state
      ensures Valid() && Outcome(Abs(), r) == Open(old(Abs()), kind, open)
    {
      if level == 0 {
        Init();
      }
      ghost var d1 := Abs();
      r := CheckVal();
      if r != 0 {
        return;
      }
      Push(kind, open);
      assert Abs() == Doc(d1.stack + [kind], true, false, d1.pp, d1.out + JsbSpec.Lead(d1) + [open]);
    }

    /** The success path of Begin: the lead, the bracket, and a new level of state `kind`. */
    method Push(kind: State, open: char)
      requires Ready() && level < MaxNesting - 1 && (kind == Array || kind == Object) && open != '\0'
      modifies this, buffer, buffer.items, state
      ensures buffer.items == old(buffer.items) || fresh(buffer.items)
      ensures Ready() && level == old(level) + 1 && isFirst && !isKey && pp == old(pp)
      ensures state[..level + 1] == old(state[..level + 1]) + [kind]
      ensures buffer.Text() == old(buffer.Text()) + JsbSpec.Lead(old(Abs())) + [open]
    {
      ghost var stack := state[..level + 1];
      Lead();
      buffer.Sappend(open);
      level := level + 1;
      state[level] := kind;
      isFirst := true;
      isKey := false;
      assert state[..level + 1] == stack + [kind];
      ShapedPush(stack, kind);
    }

    /** jsb_begin_object. */
    method BeginObject() returns (r: int)
      requires Valid() && level < MaxNesting - 1
      modifies this, buffer, buffer.items, state
      ensures Valid() && Outcome(Abs(), r) == Open(old(Abs()), Object, '{')
    {
      r := Begin(Object, '{');
    }

    /** jsb_begin_array. */
    method BeginArray() returns (r: int)
      requires Valid() && level < MaxNesting - 1
      modifies this, buffer, buffer.items, state
      ensures Valid() && Outcome(Abs(), r) == Open(old(Abs()), Array, '[')
    {
      r := Begin(Array, '[');
    }

    /** jsb_end_object and jsb_end_array, for `kind` OBJECT with '}' and ARRAY with ']'. */
    method Finish(kind: State, close: char) returns (r: int)
      requires Valid() && (kind == Array || kind == Object) && close != '\0'
      modifies this, buffer, buffer.items, state
      ensures Valid() && Outcome(Abs(), r) == Close(old(Abs()), kind, close)
    {
      assert state[level] == Top(Abs());
      if (kind == Object && level < 1) || state[level] != kind {
        return -1;
      }
      ghost var d := Abs();
      Pop(close);
      ghost var t := buffer.Text();
      ghost var inner := state[..level + 1];
      if level == 0 {
        var _ := EndDocument();
        inner := [State.End];
      }
      isFirst := false;
      r := 0;
      assert Abs() == Doc(inner, false, d.isKey, d.pp, t);
    }

    /** The success path of Finish up to _jsb_end: one level fewer, the pretty-print break and the bracket. */
    method Pop(close: char)
      requires Ready() && level >= 1 && close != '\0'
      modifies this, buffer, buffer.items
      ensures buffer.items == old(buffer.items) || fresh(buffer.items)
      ensures Ready() && level == old(level) - 1 && isKey == old(isKey) && pp == old(pp)
      ensures state[..level + 1] == old(state[..level])
      ensures buffer.Text() == old(buffer.Text()) + PrettyBreak(level, pp, isKey) + [close]
    {
      ghost var stack := state[..level + 1];
      level := level - 1;
      assert state[..level + 1] == stack[..level + 1];
      ShapedPop(stack);
      PrettyPrint();
      buffer.Sappend(close);
    }

    /** jsb_end_object. */
    method EndObject() returns (r: int)
      requires Valid()
      modifies this, buffer, buffer.items, state
      ensures Valid() && Outcome(Abs(), r) == Close(old(Abs()), Object, '}')
    {
      r := Finish(Object, '}');
    }

    /** jsb_end_array. */
    method EndArray() returns (r: int)
      requires Valid()
      modifies this, buffer, buffer.items, state
      ensures Valid() && Outcome(Abs(), r) == Close(old(Abs()), Array, ']')
    {
      r := Finish(Array, ']');
    }

    /** jsb_key: the quoted key and ": ", in an object with no key pending. */
    method Key(k: string) returns (r: int)
      requires Valid()
      modifies this, buffer, buffer.items
      ensures Valid() && Outcome(Abs(), r) == JsbSpec.Key(old(Abs()), k)
    {
      assert state[level] == Top(Abs());
      if state[level] != Object || isKey {
        return -1;
      }
      PutKey(k);
      r := 0;
    }

    /** What jsb_key does once the key is allowed: the lead, the quoted key and ": ", a key pending. */
    method PutKey(k: string)
      requires Valid() && Top(Abs()) == Object && !isKey
      modifies this, buffer, buffer.items
      ensures Valid() && Abs() == JsbSpec.Key(old(Abs()), k).doc
    {
      ghost var d := Abs();
      Lead();
      var t := CStr(k);
      buffer.EscapedNString(k, |t|);
      CStrNoNul(": ");
      buffer.Sappends(": ");
      isFirst := true;
      isKey := true;
      assert Abs() == d.(isFirst := true, isKey := true, out := d.out + JsbSpec.Lead(d) + Quoted(t) + ": ");
    }

    /** What jsb_null, jsb_int and jsb_bool do once the value is allowed: the lead, the text, no item first or key pending. */
    method PutValue(text: string)
      requires Valid() && JsbSpec.CheckVal(Abs()) && '\0' !in text
      modifies this, buffer, buffer.items
      ensures Valid() && Abs() == Value(old(Abs()), text).doc
    {
      ghost var d := Abs();
      Lead();
      CStrNoNul(text);
      buffer.Sappends(text);
      isFirst := false;
      isKey := false;
      assert Abs() == d.(isFirst := false, isKey := false, out := d.out + JsbSpec.Lead(d) + text);
    }

    /** jsb_null. */
    method Null() returns (r: int)
      requires Valid()
      modifies this, buffer, buffer.items
      ensures Valid() && Outcome(Abs(), r) == Value(old(Abs()), "null")
    {
      r := CheckVal();
      if r != 0 {
        return;
      }
      PutValue("null");
    }

    /** jsb_nstring: `null` for a NULL string, else the first `len` bytes escaped and quoted. */
    method NString(str: Option<string>, len: nat) returns (r: int)
      requires Valid() && (str.Some? ==> len <= |str.value|)
      modifies this, buffer, buffer.items
      ensures Valid() && Outcome(Abs(), r) == Value(old(Abs()), StringText(str, len))
    {
      if str.None? {
        r := Null();
        return;
      }
      r := CheckVal();
      if r != 0 {
        return;
      }
      PutString(str.value, len);
    }

    /** What jsb_nstring does with a string once the value is allowed: the lead and the quoted bytes. */
    method PutString(str: string, len: nat)
      requires Valid() && JsbSpec.CheckVal(Abs()) && len <= |str|
      modifies this, buffer, buffer.items
      ensures Valid() && Abs() == Value(old(Abs()), Quoted(str[..len])).doc
    {
      ghost var d := Abs();
      Lead();
      buffer.EscapedNString(str, len);
      buffer.Sappend('\0');
      isFirst := false;
      isKey := false;
      assert Abs() == d.(isFirst := false, isKey := false, out := d.out + JsbSpec.Lead(d) + Quoted(str[..len]));
    }

    /** jsb_int: the decimal text of an int (snprintf cannot fail on it). */
    method Int(v: int) returns (r: int)
      requires Valid() && -0x8000_0000 <= v < 0x8000_0000
      modifies this, buffer, buffer.items
      ensures Valid() && Outcome(Abs(), r) == Value(old(Abs()), IntText(v))
    {
      r := CheckVal();
      if r != 0 {
        return;
      }
      PutValue(IntText(v));
    }

    /** jsb_bool: `true` or `false`. */
    method Bool(b: bool) returns (r: int)
      requires Valid()
      modifies this, buffer, buffer.items
      ensures Valid() && Outcome(Abs(), r) == Value(old(Abs()), BoolText(b))
    {
      r := CheckVal();
      if r != 0 {
        return;
      }
      PutValue(if b then "true" else "false");
    }
  }
}
