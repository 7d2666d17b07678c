/**
 * The model builder of jsgen: a token-driven state machine that recognises
 * annotated struct declarations in a C header and records their fields.
 * The C lexer (stb_c_lexer.h) is abstracted as a fixed sequence of tokens
 * with a read position; `text` stands for the lexer's string buffer, which
 * only identifiers and string literals overwrite.
 */
module JsGenParser {
  import opened Wrappers
  import opened JsGenTypes

  /** One token as the lexer reports it; Eof is what it reports past the end. */
  datatype Token = Id(text: string) | Str(text: string) | Punct(c: char) | Other | ParseError | Eof

  /** How parse_file ends: 0, -1 on a parse-error token, or a dereference of the NULL last field. */
  datatype Status = Finished | Failed | NullField

  /** The token at position i, Eof past the end. */
  function TokenAt(ts: seq<Token>, i: nat): (t: Token)
    ensures i < |ts| ==> t == ts[i]
    ensures i >= |ts| ==> t == Eof
  {
    if i < |ts| then ts[i] else Eof
  }

  /** The string buffer once `t` is read after it held `text`: identifiers and string literals overwrite it. */
  function TextAfter(text: string, t: Token): (r: string)
    ensures t.Id? || t.Str? ==> r == t.text
    ensures !(t.Id? || t.Str?) ==> r == text
  {
    if t.Id? || t.Str? then t.text else text
  }

  /** The string buffer two tokens on from position p, where an annotation finds its argument. */
  function ArgumentText(text: string, ts: seq<Token>, p: nat): string
  {
    TextAfter(TextAfter(text, TokenAt(ts, p)), TokenAt(ts, p + 1))
  }

  /** The lexer: its input, its parse point, the last token read and its string buffer. */
  class Lexer {
    const tokens: seq<Token>
    var pos: nat
    var token: Token
    var text: string

    ghost predicate Valid()
      reads this
    {
      pos <= |tokens|
    }

    /** stb_c_lexer_init over the token sequence. */
    constructor (tokens: seq<Token>)
      ensures Valid() && this.tokens == tokens && pos == 0 && token == Eof && text == ""
    {
      this.tokens := tokens;
      pos := 0;
      token := Eof;
      text := "";
    }

    /** The string buffer after the next read: overwritten by an identifier or a string literal. */
    ghost function NextText(): string
      reads this
    {
      var t := TokenAt(tokens, pos);
      if t.Id? || t.Str? then t.text else text
    }

    /** stb_c_lexer_get_token: 0 at the end of the input, where the token becomes Eof. */
    method Next() returns (more: bool)
      requires Valid()
      modifies this
      ensures Valid()
      ensures more <==> old(pos) < |tokens|
      ensures pos == (if more then old(pos) + 1 else old(pos))
      ensures token == TokenAt(tokens, old(pos))
      ensures text == old(NextText())
    {
      if pos == |tokens| {
        token := Eof;
        return false;
      }
      token := tokens[pos];
      if token.Id? || token.Str? {
        text := token.text;
      }
      pos := pos + 1;
      more := true;
    }

    /** The declarator after a type name in parse_field: an optional '*' token, then the name if it is an identifier. */
    method Declarator() returns (star: bool, name: Option<string>)
      requires Valid()
      modifies this
      ensures Valid()
      ensures star == (TokenAt(tokens, old(pos)) == Punct('*'))
      ensures var q := if star then old(pos) + 1 else old(pos);
        (name.Some? <==> TokenAt(tokens, q).Id?) &&
        (name.Some? ==> name.value == TokenAt(tokens, q).text && pos == q + 1) &&
        (name.None? ==> pos == if q < |tokens| then q + 1 else |tokens|)
    {
      var _ := Next();
      star := token == Punct('*');
      if star {
        var _ := Next();
      }
      name := if token.Id? then Some(text) else None;
    }

    /** The argument of `alias(...)` and `sized_by(...)`: the lexer's string after two more tokens. */
    method Argument() returns (arg: string)
      requires Valid()
      modifies this
      ensures Valid() && arg == text && arg == ArgumentText(old(text), tokens, old(pos))
      ensures pos == if old(pos) + 2 <= |tokens| then old(pos) + 2 else |tokens|
    {
      var _ := Next();
      var _ := Next();
      arg := text;
    }

    /**
     * Reads tokens until the current one is the punctuation `c`.  The C loop
     * does not stop at the end of the input; this one does.
     */
    method SkipTo(c: char)
      requires Valid()
      modifies this
      ensures Valid() && pos >= old(pos)
      ensures token == Punct(c) || pos == |tokens|
    {
      while token != Punct(c)
        invariant Valid() && pos >= old(pos)
        decreases |tokens| - pos
      {
        var more := Next();
        if !more {
          break;
        }
      }
    }
  }

  /** The parser's own fields, as one value, for stating what a step changes. */
  datatype Snapshot = Snapshot(
    models: seq<Model>,
    current: Model,
    level: int,
    inTypedef: bool,
    inStruct: bool,
    inSubstruct: bool,
    isField: bool,
    canGenerate: bool)

  /** The field annotations parse_field_annotation recognises. */
  datatype Annotation = Alias | SizedBy | Ignore | JsonLiteral

  /**
   * The spellings of each annotation: `alias`/`jsgen_alias`,
   * `sized_by`/`jsgen_sized_by`, `jsgen_json_literal`/`json_literal`, and
   * for dropping a field only `jsgen_ignore` (a plain `ignore` is a name).
   */
  function AnnotationOf(w: string): (r: Option<Annotation>)
    ensures r == Some(Ignore) <==> w == "jsgen_ignore"
    ensures w == "ignore" ==> r == None
    ensures w in {"typedef", "struct"} ==> r == None
  {
    if w == "alias" || w == "jsgen_alias" then Some(Alias)
    else if w == "sized_by" || w == "jsgen_sized_by" then Some(SizedBy)
    else if w == "jsgen_ignore" then Some(Ignore)
    else if w == "jsgen_json_literal" || w == "json_literal" then Some(JsonLiteral)
    else None
  }

  /** What an annotation with argument `arg` does to the field it follows; Ignore drops the field instead. */
  function Annotate(f: Field, a: Annotation, arg: string): Field
  {
    match a
    case Alias => f.(hasAlias := true, alias := arg)
    case SizedBy => f.(hasCounter := true, isArray := true, counterField := arg)
    case JsonLiteral => f.(isJsonLiteral := true)
    case Ignore => f
  }

  /** The fields with the last one replaced by `f`. */
  function WithLast(fs: seq<Field>, f: Field): (r: seq<Field>)
    requires |fs| > 0
    ensures |r| == |fs| && r[|fs| - 1] == f && r[..|fs| - 1] == fs[..|fs| - 1]
  {
    fs[..|fs| - 1] + [f]
  }

  /** da_last on a non-empty field list. */
  function Last(fs: seq<Field>): (f: Field)
    requires |fs| > 0
    ensures f in fs
  {
    fs[|fs| - 1]
  }

  /** The field parse_field records: type text with the prefix and a '*' after a star, the base name alone as simple type. */
  function NewField(prefix: string, base: string, star: bool, name: string, bracket: bool): (f: Field)
    ensures f.typeText == prefix + base + (if star then "*" else "") && f.simpleType == base
    ensures f.name == name && f.isPointer == (star || bracket) && f.isArray == bracket
    ensures !f.hasAlias && !f.hasCounter && !f.isCounterField && !f.isJsonLiteral
  {
    EmptyField.(typeText := prefix + base + (if star then "*" else ""), simpleType := base,
                name := name, isPointer := star || bracket, isArray := bracket)
  }

  /** The first field named `nm`, as the inner loop of post_process_model finds it. */
  function FirstNamed(fs: seq<Field>, nm: string): (r: Option<nat>)
    ensures r.Some? ==> r.value < |fs| && fs[r.value].name == nm
    ensures r.Some? ==> forall k :: 0 <= k < r.value ==> fs[k].name != nm
    ensures r.None? ==> forall k :: 0 <= k < |fs| ==> fs[k].name != nm
  {
    if |fs| == 0 then None
    else if fs[0].name == nm then Some(0)
    else match FirstNamed(fs[1..], nm)
      case None => None
      case Some(j) => Some(j + 1)
  }

  /** Whether one of the first n fields names field j as its counter (and j is the first field of that name). */
  function MarkedBy(fs: seq<Field>, n: nat, j: nat): bool
    requires n <= |fs|
  {
    n > 0 && (MarkedBy(fs, n - 1, j) || (fs[n - 1].hasCounter && FirstNamed(fs, fs[n - 1].counterField) == Some(j)))
  }

  /** post_process_model's effect on the fields: every counter named by a sized_by field is marked. */
  function Resolve(fs: seq<Field>): (r: seq<Field>)
    ensures |r| == |fs|
  {
    seq(|fs|, j requires 0 <= j < |fs| => fs[j].(isCounterField := fs[j].isCounterField || MarkedBy(fs, |fs|, j)))
  }

  /** Every sized_by field's counter, when a field of that name exists, is marked. */
  ghost predicate CountersResolved(fs: seq<Field>)
  {
    forall i :: 0 <= i < |fs| && fs[i].hasCounter ==>
      var m := FirstNamed(fs, fs[i].counterField);
      m.Some? ==> fs[m.value].isCounterField
  }

  /** Only the isCounterField flags may differ. */
  ghost predicate SameButMarks(r: seq<Field>, fs: seq<Field>)
  {
    |r| == |fs| && forall j :: 0 <= j < |fs| ==> r[j] == fs[j].(isCounterField := r[j].isCounterField)
  }

  /** The fields with the first one named `nm`, if any, marked as a counter field. */
  function Marked(fs: seq<Field>, nm: string): (r: seq<Field>)
    ensures SameButMarks(r, fs)
  {
    match FirstNamed(fs, nm)
    case None => fs
    case Some(j) => fs[j := fs[j].(isCounterField := true)]
  }

  /** After the outer loop of post_process_model has visited the first n fields. */
  ghost predicate ResolvedUpTo(cur: seq<Field>, fs: seq<Field>, n: nat)
    requires n <= |fs|
  {
    SameButMarks(cur, fs) &&
    forall j :: 0 <= j < |fs| ==> cur[j].isCounterField == (fs[j].isCounterField || MarkedBy(fs, n, j))
  }

  /** One step of the outer loop. */
  lemma MarkStep(cur: seq<Field>, fs: seq<Field>, i: nat)
    requires i < |fs| && ResolvedUpTo(cur, fs, i)
    ensures ResolvedUpTo(if cur[i].hasCounter then Marked(cur, cur[i].counterField) else cur, fs, i + 1)
  {
    assert cur[i].hasCounter == fs[i].hasCounter && cur[i].counterField == fs[i].counterField;
    if fs[i].hasCounter {
      FirstNamedSameNames(cur, fs, fs[i].counterField);
    }
  }

  /** After the last step the fields are Resolve of the originals. */
  lemma ResolvedAll(cur: seq<Field>, fs: seq<Field>)
    requires ResolvedUpTo(cur, fs, |fs|)
    ensures cur == Resolve(fs)
  {
    forall j | 0 <= j < |fs|
      ensures cur[j] == Resolve(fs)[j]
    {
      assert cur[j] == fs[j].(isCounterField := cur[j].isCounterField);
    }
  }

  /** Marking counters changes no name, so the first field of each name stays the same. */
  lemma {:induction false} FirstNamedSameNames(r: seq<Field>, fs: seq<Field>, nm: string)
    requires SameButMarks(r, fs)
    ensures FirstNamed(r, nm) == FirstNamed(fs, nm)
  {
    if |fs| > 0 && fs[0].name != nm {
      assert r[0].name == fs[0].name;
      assert SameButMarks(r[1..], fs[1..]) by {
        forall j | 0 <= j < |fs| - 1
          ensures r[1..][j] == fs[1..][j].(isCounterField := r[1..][j].isCounterField)
        {
          assert r[j + 1] == fs[j + 1].(isCounterField := r[j + 1].isCounterField);
        }
      }
      FirstNamedSameNames(r[1..], fs[1..], nm);
    } else if |fs| > 0 {
      assert r[0].name == fs[0].name;
    }
  }

  /** A field marked by MarkedBy(fs, n, j) is marked by every longer prefix as well. */
  lemma {:induction false} MarkedByGrows(fs: seq<Field>, n: nat, m: nat, j: nat)
    requires n <= m <= |fs| && MarkedBy(fs, n, j)
    ensures MarkedBy(fs, m, j)
    decreases m - n
  {
    if n < m {
      MarkedByGrows(fs, n + 1, m, j);
    }
  }

  /** A field that is marked is the first of its name: the resolver stops at the first match. */
  lemma {:induction false} MarkedIsFirst(fs: seq<Field>, n: nat, j: nat)
    requires n <= |fs| && MarkedBy(fs, n, j)
    ensures j < |fs| && forall k :: 0 <= k < j ==> fs[k].name != fs[j].name
  {
    if !(fs[n - 1].hasCounter && FirstNamed(fs, fs[n - 1].counterField) == Some(j)) {
      MarkedIsFirst(fs, n - 1, j);
    }
  }

  /** Resolving marks every counter that exists, so the model appended to the list is resolved. */
  lemma ResolveResolves(fs: seq<Field>)
    ensures CountersResolved(Resolve(fs))
  {
    var r := Resolve(fs);
    assert SameButMarks(r, fs);
    forall i | 0 <= i < |r| && r[i].hasCounter
      ensures var m := FirstNamed(r, r[i].counterField); m.Some? ==> r[m.value].isCounterField
    {
      FirstNamedSameNames(r, fs, r[i].counterField);
      var m := FirstNamed(fs, fs[i].counterField);
      if m.Some? {
        assert MarkedBy(fs, i + 1, m.value);
        MarkedByGrows(fs, i + 1, |fs|, m.value);
      }
    }
  }

  /**
   * Only the first field of a given name is ever marked: a later field with
   * the same name keeps the flag it had.
   */
  lemma ResolveOnlyFirst(fs: seq<Field>, a: nat, b: nat)
    requires a < b < |fs| && fs[a].name == fs[b].name
    ensures Resolve(fs)[b].isCounterField == fs[b].isCounterField
  {
    if MarkedBy(fs, |fs|, b) {
      MarkedIsFirst(fs, |fs|, b);
    }
  }

  /** Resolving changes nothing but marks, and nothing at all when no sized_by field names an existing field. */
  lemma ResolveNoMatch(fs: seq<Field>)
    requires forall i :: 0 <= i < |fs| && fs[i].hasCounter ==> FirstNamed(fs, fs[i].counterField).None?
    ensures Resolve(fs) == fs
  {
    forall j | 0 <= j < |fs|
      ensures !MarkedBy(fs, |fs|, j)
    {
      NotMarked(fs, |fs|, j);
    }
  }

  lemma {:induction false} NotMarked(fs: seq<Field>, n: nat, j: nat)
    requires n <= |fs|
    requires forall i :: 0 <= i < |fs| && fs[i].hasCounter ==> FirstNamed(fs, fs[i].counterField).None?
    ensures !MarkedBy(fs, n, j)
  {
    if n > 0 {
      NotMarked(fs, n - 1, j);
    }
  }

  /** Resolving keeps every name, type and annotation, and never clears a mark. */
  lemma ResolveKeeps(fs: seq<Field>)
    ensures SameButMarks(Resolve(fs), fs)
    ensures forall j :: 0 <= j < |fs| && fs[j].isCounterField ==> Resolve(fs)[j].isCounterField
  {
  }

  /**
   * The fields parse_field adds when the type name `base` was read and the
   * parse point is p: one field when an identifier follows the optional '*',
   * none otherwise.
   */
  function Declared(prefix: string, base: string, ts: seq<Token>, p: nat): (r: seq<Field>)
    ensures |r| <= 1
    ensures r != [] <==> TokenAt(ts, if TokenAt(ts, p) == Punct('*') then p + 1 else p).Id?
  {
    var star := TokenAt(ts, p) == Punct('*');
    var q := if star then p + 1 else p;
    if TokenAt(ts, q).Id? then [NewField(prefix, base, star, TokenAt(ts, q).text, TokenAt(ts, q + 1) == Punct('['))]
    else []
  }

  /** The fields without the last one; jsgen_ignore leaves an empty list as it is. */
  function DropLast(fs: seq<Field>): (r: seq<Field>)
    ensures fs != [] ==> r == fs[..|fs| - 1]
    ensures fs == [] ==> r == []
  {
    if fs == [] then [] else fs[..|fs| - 1]
  }

  /**
   * What the rest of handle_id does with the identifier w read at parse
   * point p of the tokens ts, from parser state s to t: `typedef` and
   * `struct` set the framing flags (a second `struct` marks a nested one);
   * jsgen_ignore drops the last field; any other annotation rewrites the
   * last field with its argument, and fails on an empty field list; an
   * identifier at depth 0 of a struct names the model; one at depth 1 adds
   * the field parse_field reads after it, with "struct " before the type of
   * a nested struct, and sets is_field; any other identifier changes
   * nothing.
   */
  ghost predicate WordHandled(w: string, ts: seq<Token>, p: nat, s: Snapshot, t: Snapshot, ok: bool)
  {
    var annotation := s.isField && AnnotationOf(w).Some?;
    var fs := s.current.fields;
    (w == "typedef" ==> ok && t == s.(inTypedef := true)) &&
    (w == "struct" ==> ok && t == if s.inStruct then s.(inSubstruct := true) else s.(inStruct := true)) &&
    (w !in {"typedef", "struct"} && annotation ==>
       t == s.(current := s.current.(fields := t.current.fields)) &&
       (AnnotationOf(w) == Some(Ignore) ==> ok && t.current.fields == DropLast(fs)) &&
       (AnnotationOf(w) != Some(Ignore) ==>
          (ok <==> fs != []) &&
          (ok ==>
             t.current.fields ==
             WithLast(fs, Annotate(Last(fs), AnnotationOf(w).value,
                                   if AnnotationOf(w) == Some(JsonLiteral) then w else ArgumentText(w, ts, p)))))) &&
    (w !in {"typedef", "struct"} && !annotation && s.inStruct && s.level == 0 ==>
       ok && t == s.(current := s.current.(name := if s.inTypedef then w else "struct " + w, simpleName := w))) &&
    (w !in {"typedef", "struct"} && !annotation && s.inStruct && s.level == 1 ==>
       ok && t == s.(current := s.current.(fields := fs + Declared(if s.inSubstruct then "struct " else "", w, ts, p)),
                     inSubstruct := false, isField := true)) &&
    (w !in {"typedef", "struct"} && !annotation && !(s.inStruct && 0 <= s.level <= 1) ==> ok && t == s)
  }

  class Parser {
    const lex: Lexer
    var models: seq<Model>
    var current: Model
    var level: int
    var inTypedef: bool
    var inStruct: bool
    var inSubstruct: bool
    var isField: bool
    var canGenerate: bool

    ghost function State(): Snapshot
      reads this
    {
      Snapshot(models, current, level, inTypedef, inStruct, inSubstruct, isField, canGenerate)
    }

    /**
     * A nested struct is only seen inside a struct, a struct or typedef only
     * after a marker, and until a marker is seen the working model is empty.
     */
    ghost predicate Framed()
      reads this
    {
      (inSubstruct ==> inStruct) && (inStruct ==> canGenerate) && (inTypedef ==> canGenerate) &&
      (!canGenerate ==> current == EmptyModel)
    }

    ghost predicate Valid()
      reads this, lex
    {
      lex.Valid() && Framed()
    }

    /** `Parser p = {.lex = &lex, .models = models, .current_model = &m}` with `Model m = {0}`. */
    constructor (lex: Lexer, models: seq<Model>)
      requires lex.Valid()
      ensures Valid() && this.lex == lex
      ensures State() == Snapshot(models, EmptyModel, 0, false, false, false, false, false)
    {
      this.lex := lex;
      this.models := models;
      current := EmptyModel;
      level := 0;
      inTypedef := false;
      inStruct := false;
      inSubstruct := false;
      isField := false;
      canGenerate := false;
    }

    /** The identifier handle_id acts on: after `const`, whatever the lexer's string holds once the next token is read. */
    ghost function Word(): string
      reads this, lex
    {
      if lex.text == "const" then lex.NextText() else lex.text
    }

    /** The parse point once handle_id has stepped over a leading `const`. */
    ghost function WordPos(): nat
      reads this, lex
    {
      if lex.text == "const" && lex.pos < |lex.tokens| then lex.pos + 1 else lex.pos
    }

    /** post_process_model: marks, in place, the counter field of every sized_by field. */
    method PostProcessModel()
      modifies this
      ensures State() == old(State()).(current := old(current).(fields := Resolve(old(current.fields))))
    {
      ghost var fs := current.fields;
      var i := 0;
      while i < |current.fields|
        invariant State() == old(State()).(current := current)
        invariant current == old(current).(fields := current.fields)
        invariant i <= |fs| && ResolvedUpTo(current.fields, fs, i)
      {
        var field := current.fields[i];
        ghost var before := current.fields;
        if field.hasCounter {
          MarkCounter(field.counterField);
        }
        MarkStep(before, fs, i);
        i := i + 1;
      }
      ResolvedAll(current.fields, fs);
    }

    /** The inner loop of post_process_model: the first field named `nm`, if any, becomes a counter field. */
    method MarkCounter(nm: string)
      modifies this
      ensures State() == old(State()).(current := old(current).(fields := Marked(old(current.fields), nm)))
    {
      var j := 0;
      while j < |current.fields|
        invariant j <= |current.fields|
        invariant State() == old(State())
        invariant forall k :: 0 <= k < j ==> current.fields[k].name != nm
      {
        if current.fields[j].name == nm {
          current := current.(fields := current.fields[j := current.fields[j].(isCounterField := true)]);
          return;
        }
        j := j + 1;
      }
    }

    /**
     * parse_field_annotation: acts only once a field has been seen, on the
     * last field of the working model.  `handled` is its return value; `ok`
     * is false where the C code would write through the NULL pointer that
     * da_last gives for an empty field list.  Alias and sized_by take their
     * argument from the lexer's string two tokens further on.
     */
    method ParseFieldAnnotation() returns (handled: bool, ok: bool)
      requires Valid()
      modifies this, lex
      ensures Valid()
      ensures State() == old(State()).(current := current)
      ensures current == old(current).(fields := current.fields)
      ensures lex.pos >= old(lex.pos)
      ensures handled <==> old(isField) && AnnotationOf(old(lex.text)).Some?
      ensures !handled ==> ok && current == old(current) && unchanged(lex)
      ensures handled && AnnotationOf(old(lex.text)) == Some(Ignore) ==>
                (ok && unchanged(lex) &&
                 current.fields == if old(current.fields) == [] then [] else old(current.fields)[..|old(current.fields)| - 1])
      ensures handled && AnnotationOf(old(lex.text)) in {Some(Alias), Some(SizedBy)} ==>
                lex.pos == (if old(lex.pos) + 2 <= |lex.tokens| then old(lex.pos) + 2 else |lex.tokens|)
      ensures handled && AnnotationOf(old(lex.text)) == Some(JsonLiteral) ==> unchanged(lex)
      ensures handled && AnnotationOf(old(lex.text)) != Some(Ignore) ==>
                (ok <==> old(current.fields) != []) &&
                (ok ==> current.fields == WithLast(old(current.fields),
                          Annotate(Last(old(current.fields)), AnnotationOf(old(lex.text)).value, lex.text)))
      ensures handled && AnnotationOf(old(lex.text)) in {Some(Alias), Some(SizedBy)} ==>
                lex.text == ArgumentText(old(lex.text), lex.tokens, old(lex.pos))
    {
      if !isField {
        return false, true;
      }
      var a := AnnotationOf(lex.text);
      if a.None? {
        return false, true;
      }
      var fs := current.fields;
      handled := true;
      if a.value == Ignore {
        if |fs| > 0 {
          current := current.(fields := fs[..|fs| - 1]);
        }
        return true, true;
      }
      var arg := lex.text;
      if a.value != JsonLiteral {
        arg := lex.Argument();
      }
      if fs == [] {
        return true, false;
      }
      current := current.(fields := WithLast(fs, Annotate(fs[|fs| - 1], a.value, arg)));
      ok := true;
    }

    /**
     * parse_field: the lexer's string is the base type name; an optional
     * '*' and then a name identifier follow.  The field is recorded only
     * when the name is there; a '[' after the name makes it an array.  The
     * token after the name is only looked at: the parse point is put back.
     */
    method ParseField(prefix: string)
      requires Valid() && canGenerate
      modifies this, lex
      ensures Valid()
      ensures State() == old(State()).(current := current)
      ensures current == old(current).(fields := current.fields)
      ensures var t := lex.tokens; var p := old(lex.pos);
        var star := TokenAt(t, p) == Punct('*');
        var q := if star then p + 1 else p;
        if TokenAt(t, q).Id? then
          lex.pos == q + 1 &&
          current.fields == old(current.fields) + [NewField(prefix, old(lex.text), star, TokenAt(t, q).text, TokenAt(t, q + 1) == Punct('['))]
        else
          lex.pos == (if q < |t| then q + 1 else |t|) && current.fields == old(current.fields)
      ensures current.fields == old(current.fields) + Declared(prefix, old(lex.text), lex.tokens, old(lex.pos))
    {
      var base := lex.text;
      var star, name := lex.Declarator();
      if name.None? {
        return;
      }
      current := current.(fields := current.fields + [NewField(prefix, base, star, name.value, false)]);
      MarkIfArray();
    }

    /**
     * The look-ahead at the end of parse_field: a '[' after the name makes
     * the last field an array and a pointer; the tokens up to ']' are read
     * and the parse point is then put back.
     */
    method MarkIfArray()
      requires Valid() && canGenerate && current.fields != []
      modifies this, lex
      ensures Valid() && lex.pos == old(lex.pos)
      ensures State() == old(State()).(current := current)
      ensures current == old(current).(fields := current.fields)
      ensures current.fields == if TokenAt(lex.tokens, old(lex.pos)) == Punct('[')
        then WithLast(old(current.fields), Last(old(current.fields)).(isArray := true, isPointer := true))
        else old(current.fields)
    {
      var parsePoint := lex.pos;
      var _ := lex.Next();
      if lex.token == Punct('[') {
        var fs := current.fields;
        current := current.(fields := WithLast(fs, fs[|fs| - 1].(isArray := true, isPointer := true)));
        lex.SkipTo(']');
      }
      lex.pos := parsePoint;
    }

    /**
     * handle_id: a marker starts a model and says what to generate; before
     * one, identifiers do nothing.  Otherwise a leading `const` is stepped
     * over and the identifier after it handled in its place.  `ok` is false
     * where the C code would dereference a NULL field.
     */
    method HandleId() returns (ok: bool)
      requires Valid()
      modifies this, lex
      ensures Valid()
      ensures lex.pos >= old(lex.pos)
      ensures models == old(models) && level == old(level)
      ensures old(isField) ==> isField
      ensures !ok ==> old(isField)
      ensures IsMarker(old(lex.text)) ==>
                (ok && unchanged(lex) &&
                 State() == old(State()).(canGenerate := true,
                   current := old(current).(parse := MarkerParses(old(lex.text)), stringify := MarkerStringifies(old(lex.text)))))
      ensures !IsMarker(old(lex.text)) && !old(canGenerate) ==> ok && State() == old(State()) && unchanged(lex)
      ensures !IsMarker(old(lex.text)) && old(canGenerate) ==>
                (lex.pos >= old(lex.pos) + (if old(lex.text) == "const" then 1 else 0) || lex.pos == |lex.tokens|) &&
                WordHandled(old(Word()), lex.tokens, old(WordPos()), old(State()), State(), ok)
    {
      if IsMarker(lex.text) {
        canGenerate := true;
        current := current.(stringify := true, parse := true);
        if lex.text == "JSONP" || lex.text == "JSGEN_JSONP" {
          current := current.(stringify := false);
        } else if lex.text == "JSONS" || lex.text == "JSGEN_JSONS" {
          current := current.(parse := false);
        }
        return true;
      }
      if !canGenerate {
        return true;
      }
      ghost var w, p, s := Word(), WordPos(), State();
      if lex.text == "const" {
        var _ := lex.Next();
      }
      assert lex.text == w && lex.pos == p;
      ok := HandleWord();
      assert WordHandled(w, lex.tokens, p, s, State(), ok);
    }

    /** The rest of handle_id, on the identifier in the lexer's string; its effect is WordHandled. */
    method HandleWord() returns (ok: bool)
      requires Valid() && canGenerate
      modifies this, lex
      ensures Valid()
      ensures lex.pos >= old(lex.pos)
      ensures models == old(models) && level == old(level) && canGenerate
      ensures old(isField) ==> isField
      ensures !ok ==> old(isField)
      ensures WordHandled(old(lex.text), lex.tokens, old(lex.pos), old(State()), State(), ok)
      ensures old(lex.text) !in {"typedef", "struct"} && !(old(isField) && AnnotationOf(old(lex.text)).Some?) &&
                !(old(inStruct) && 0 <= old(level) <= 1) ==>
                unchanged(lex)
    {
      ok := true;
      if lex.text == "typedef" {
        inTypedef := true;
      } else if lex.text == "struct" {
        if inStruct {
          inSubstruct := true;
        } else {
          inStruct := true;
        }
      } else {
        var handled;
        handled, ok := ParseFieldAnnotation();
        if handled {
        } else if inStruct && level == 0 {
          current := current.(name := if inTypedef then lex.text else "struct " + lex.text, simpleName := lex.text);
        } else if inStruct && level == 1 {
          ParseField(if inSubstruct then "struct " else "");
          inSubstruct := false;
          isField := true;
        }
      }
    }

    /**
     * handle_semicolon: always ends a nested struct; at depth 0 of a struct
     * it resolves the counters, appends the model, starts an empty one and
     * waits for the next marker.
     */
    method HandleSemicolon()
      requires Valid()
      modifies this
      ensures Valid()
      ensures old(level) == 0 && old(inStruct) ==>
        State() == Snapshot(old(models) + [old(current).(fields := Resolve(old(current.fields)))], EmptyModel,
                            old(level), false, false, false, old(isField), false)
      ensures !(old(level) == 0 && old(inStruct)) ==> State() == old(State()).(inSubstruct := false)
    {
      inSubstruct := false;
      if level == 0 && inStruct {
        PostProcessModel();
        models := models + [current];
        current := EmptyModel;
        inStruct := false;
        inTypedef := false;
        canGenerate := false;
      }
    }

    /**
     * The token loop of parse_file.  Models already in the list are kept as
     * they are, every model appended has its counters resolved, and a
     * parse-error token stops the loop with -1.  Before a marker, tokens
     * other than identifiers are skipped.
     */
    method Run() returns (st: Status)
      requires Valid()
      modifies this, lex
      ensures Valid()
      ensures |models| >= |old(models)| && models[..|old(models)|] == old(models)
      ensures forall k :: |old(models)| <= k < |models| ==> CountersResolved(models[k].fields)
      ensures st == Finished ==> lex.pos == |lex.tokens|
      ensures st == Failed ==> 0 < lex.pos && lex.tokens[lex.pos - 1] == ParseError
      ensures old(isField) ==> isField
      ensures st == NullField ==> isField
      ensures !old(canGenerate) && NoMarker(lex.tokens) ==> st == Finished && State() == old(State())
    {
      ghost var start := State();
      while true
        invariant Valid()
        invariant |models| >= |start.models| && models[..|start.models|] == start.models
        invariant forall k :: |start.models| <= k < |models| ==> CountersResolved(models[k].fields)
        invariant start.isField ==> isField
        invariant !start.canGenerate && NoMarker(lex.tokens) ==> State() == start
        decreases |lex.tokens| - lex.pos
      {
        var more := lex.Next();
        if !more {
          return Finished;
        }
        if !canGenerate && !lex.token.Id? {
          continue;
        }
        match lex.token {
          case Id(_) =>
            var ok := HandleId();
            if !ok {
              return NullField;
            }
          case Punct(c) =>
            if c == '{' {
              level := level + 1;
            } else if c == '}' {
              level := level - 1;
            } else if c == ';' {
              ghost var before := models;
              ghost var m := current;
              HandleSemicolon();
              if |models| > |before| {
                ResolveResolves(m.fields);
                assert models == before + [m.(fields := Resolve(m.fields))];
              }
            }
          case ParseError =>
            return Failed;
          case _ =>
        }
      }
    }
  }

  /** No identifier in the input is one of the six markers. */
  ghost predicate NoMarker(ts: seq<Token>)
  {
    forall i :: 0 <= i < |ts| && ts[i].Id? ==> !IsMarker(ts[i].text)
  }

  /**
   * parse_file after the file is read: a lexer over the tokens, an empty
   * working model, and the token loop.  The model list given is extended,
   * never rewritten.
   */
  method ParseFile(tokens: seq<Token>, models: seq<Model>) returns (st: Status, out: seq<Model>)
    ensures |out| >= |models| && out[..|models|] == models
    ensures forall k :: |models| <= k < |out| ==> CountersResolved(out[k].fields)
    ensures st == Failed ==> ParseError in tokens
    ensures NoMarker(tokens) ==> st == Finished && out == models
  {
    var lex := new Lexer(tokens);
    var p := new Parser(lex, models);
    st := p.Run();
    out := p.models;
  }
}
