/**
 * The string builder of ds.h (DsString, a dynamic array of char) and the
 * string iterator split.  A builder is a DynArray.Vec<char>; the edits keep
 * or write the NUL terminator after the last character where the source does.
 */
module Strings {
  import opened Wrappers
  import opened DynArray

  /** The characters the trim functions drop: space, tab, newline, carriage return. */
  predicate IsSpace(c: char)
  {
    c == ' ' || c == '\t' || c == '\n' || c == '\r'
  }

  /** What strlen sees of `s`: the characters before the first NUL. */
  function CStr(s: string): (r: string)
    ensures '\0' !in r
    ensures |r| <= |s| && r == s[..|r|]
    ensures |r| < |s| ==> s[|r|] == '\0'
  {
    if s == [] || s[0] == '\0' then [] else [s[0]] + CStr(s[1..])
  }

  /** A string without NUL is its own C string. */
  lemma {:induction false} CStrNoNul(s: string)
    requires '\0' !in s
    ensures CStr(s) == s
  {
    if s != [] {
      assert '\0' !in s[1..] by {
        assert forall c :: c in s[1..] ==> c in s;
      }
      CStrNoNul(s[1..]);
    }
  }

  /** The C strings `parts` joined, each cut at its first NUL. */
  function Concat(parts: seq<string>): (r: string)
    ensures '\0' !in r
  {
    if parts == [] then [] else Concat(parts[..|parts| - 1]) + CStr(parts[|parts| - 1])
  }

  /** `s` without its maximal leading run of whitespace. */
  function TrimLeft(s: string): (r: string)
    ensures |r| <= |s|
  {
    if s != [] && IsSpace(s[0]) then TrimLeft(s[1..]) else s
  }

  /** `s` without its maximal trailing run of whitespace. */
  function TrimRight(s: string): (r: string)
    ensures |r| <= |s|
  {
    if s != [] && IsSpace(s[|s| - 1]) then TrimRight(s[..|s| - 1]) else s
  }

  /** Left trimming keeps a suffix, drops only whitespace, and stops at the first other character. */
  lemma {:induction false} TrimLeftShape(s: string)
    ensures TrimLeft(s) == s[|s| - |TrimLeft(s)|..]
    ensures forall j :: 0 <= j < |s| - |TrimLeft(s)| ==> IsSpace(s[j])
    ensures TrimLeft(s) == [] || !IsSpace(TrimLeft(s)[0])
  {
    if s != [] && IsSpace(s[0]) {
      TrimLeftShape(s[1..]);
    }
  }

  /** Right trimming keeps a prefix, drops only whitespace, and stops at the last other character. */
  lemma {:induction false} TrimRightShape(s: string)
    ensures TrimRight(s) == s[..|TrimRight(s)|]
    ensures forall j :: |TrimRight(s)| <= j < |s| ==> IsSpace(s[j])
    ensures TrimRight(s) == [] || !IsSpace(TrimRight(s)[|TrimRight(s)| - 1])
  {
    if s != [] && IsSpace(s[|s| - 1]) {
      TrimRightShape(s[..|s| - 1]);
    }
  }

  /** Left trimming removes exactly the leading whitespace run: any cut with spaces before and none at it is the one. */
  lemma {:induction false} TrimLeftExact(s: string, k: nat)
    requires k <= |s|
    requires forall j :: 0 <= j < k ==> IsSpace(s[j])
    requires k == |s| || !IsSpace(s[k])
    ensures TrimLeft(s) == s[k..]
  {
    if k > 0 {
      TrimLeftExact(s[1..], k - 1);
      assert s[1..][k - 1..] == s[k..];
    }
  }

  /** Right trimming removes exactly the trailing whitespace run. */
  lemma {:induction false} TrimRightExact(s: string, k: nat)
    requires k <= |s|
    requires forall j :: k <= j < |s| ==> IsSpace(s[j])
    requires k == 0 || !IsSpace(s[k - 1])
    ensures TrimRight(s) == s[..k]
  {
    if k < |s| {
      TrimRightExact(s[..|s| - 1], k);
      assert s[..|s| - 1][..k] == s[..k];
    }
  }

  /** Left trimming a second time changes nothing. */
  lemma TrimLeftIdempotent(s: string)
    ensures TrimLeft(TrimLeft(s)) == TrimLeft(s)
  {
    TrimLeftShape(s);
    TrimLeftExact(TrimLeft(s), 0);
  }

  /** Right trimming a second time changes nothing. */
  lemma TrimRightIdempotent(s: string)
    ensures TrimRight(TrimRight(s)) == TrimRight(s)
  {
    var t := TrimRight(s);
    TrimRightShape(s);
    TrimRightExact(t, |t|);
  }

  /** Text made of whitespace alone trims to the empty string from either side. */
  lemma {:induction false} TrimAllSpace(s: string)
    requires forall j :: 0 <= j < |s| ==> IsSpace(s[j])
    ensures TrimLeft(s) == [] && TrimRight(s) == []
  {
    TrimLeftExact(s, |s|);
    TrimRightExact(s, 0);
  }

  /** Concat of one more part is the old concatenation followed by that part's C string. */
  lemma ConcatSnoc(parts: seq<string>, n: nat)
    requires n < |parts|
    ensures Concat(parts[..n + 1]) == Concat(parts[..n]) + CStr(parts[n])
  {
    assert parts[..n + 1][..n] == parts[..n];
  }

  /** One round of the _ds_sb_append loop: reserve room for the string and one more byte, copy it. */
  method AppendPart(sb: Vec<char>, part: string)
    requires sb.Valid()
    modifies sb, sb.data
    ensures sb.Valid() && (sb.data == old(sb.data) || fresh(sb.data))
    ensures sb.Elements() == old(sb.Elements()) + CStr(part)
    ensures sb.length < sb.data.Length
  {
    var str := CStr(part);
    sb.Reserve(sb.length + |str| + 1);
    sb.CopyTail(str);
  }

  /** One round of the _ds_sb_append loop, seen as the next part of the concatenation. */
  method AppendNext(sb: Vec<char>, parts: seq<string>, n: nat, ghost start: seq<char>)
    requires n < |parts| && sb.Valid() && sb.Elements() == start + Concat(parts[..n])
    modifies sb, sb.data
    ensures sb.Valid() && (sb.data == old(sb.data) || fresh(sb.data))
    ensures sb.Elements() == start + Concat(parts[..n + 1])
  {
    AppendPart(sb, parts[n]);
    ConcatSnoc(parts, n);
  }

  /** The closing step of _ds_sb_append: make room for one more byte and store NUL after the text. */
  method Terminate(sb: Vec<char>)
    requires sb.Valid()
    modifies sb, sb.data
    ensures sb.Valid() && sb.Elements() == old(sb.Elements())
    ensures sb.length < sb.data.Length && sb.data[sb.length] == '\0'
  {
    sb.Reserve(sb.length + 1);
    sb.data[sb.length] := '\0';
  }

  /**
   * _ds_sb_append: append each C string of `parts` in turn, then terminate
   * the builder with NUL.
   */
  method AppendStrings(sb: Vec<char>, parts: seq<string>)
    requires sb.Valid()
    modifies sb, sb.data
    ensures sb.Valid()
    ensures sb.Elements() == old(sb.Elements()) + Concat(parts)
    ensures sb.length < sb.data.Length && sb.data[sb.length] == '\0'
  {
    ghost var start := sb.Elements();
    var n := 0;
    while n < |parts|
      invariant 0 <= n <= |parts|
      invariant sb.Valid()
      invariant sb.data == old(sb.data) || fresh(sb.data)
      invariant sb.Elements() == start + Concat(parts[..n])
    {
      AppendNext(sb, parts, n, start);
      n := n + 1;
    }
    assert parts[..n] == parts;
    Terminate(sb);
  }

  /**
   * ds_sb_insert: nothing for a NULL string or an index past the end; otherwise
   * reserve, move the tail up by the string's length and copy the string in.
   */
  method Insert(sb: Vec<char>, str: Option<string>, index: nat)
    requires sb.Valid()
    modifies sb, sb.data
    ensures sb.Valid()
    ensures str.None? || index > old(sb.length) ==> sb.Elements() == old(sb.Elements()) && sb.data == old(sb.data)
    ensures str.Some? && index <= old(sb.length) ==>
      sb.Elements() == old(sb.Elements())[..index] + CStr(str.value) + old(sb.Elements())[index..]
  {
    if str.None? || index > sb.length {
      return;
    }
    var s := CStr(str.value);
    var len := |s|;
    sb.Reserve(sb.length + len + 1);
    OpenGap(sb.data, index, sb.length, s);
    sb.length := sb.length + len;
  }

  /** The scan of ds_sb_ltrim: the length of the whitespace run at the start of a[0 .. n). */
  method LeadingSpaces(a: array<char>, n: nat) returns (i: nat)
    requires n <= a.Length
    ensures i <= n && TrimLeft(a[..n]) == a[i..n]
  {
    i := 0;
    while i < n && IsSpace(a[i])
      invariant 0 <= i <= n
      invariant forall j :: 0 <= j < i ==> IsSpace(a[j])
    {
      i := i + 1;
    }
    TrimLeftExact(a[..n], i);
    assert a[..n][i..] == a[i..n];
  }

  /** The scan of ds_sb_rtrim: where the whitespace run at the end of a[0 .. n) begins. */
  method TrailingSpaces(a: array<char>, n: nat) returns (i: nat)
    requires n <= a.Length
    ensures i <= n && TrimRight(a[..n]) == a[..i]
  {
    i := n;
    while i > 0 && IsSpace(a[i - 1])
      invariant 0 <= i <= n
      invariant forall j :: i <= j < n ==> IsSpace(a[j])
    {
      i := i - 1;
    }
    TrimRightExact(a[..n], i);
    assert a[..n][..i] == a[..i];
  }

  /**
   * ds_sb_ltrim: skip the leading whitespace and move the rest, terminator
   * included, to the front.  Moving reads the byte after the text, so a
   * builder with whitespace to cut must hold a terminator after its text.
   */
  method Ltrim(sb: Vec<char>)
    requires sb.Valid()
    requires sb.length == 0 || sb.length < sb.data.Length || !IsSpace(sb.data[0])
    modifies sb, sb.data
    ensures sb.Valid() && sb.data == old(sb.data)
    ensures sb.Elements() == TrimLeft(old(sb.Elements()))
    ensures old(sb.length) > 0 && old(sb.length) < sb.data.Length ==> sb.data[sb.length] == old(sb.data[sb.length])
    ensures sb.length == old(sb.length) ==> sb.data[..] == old(sb.data[..])
  {
    if sb.length > 0 {
      var a := sb.data;
      var n := sb.length;
      ghost var text := a[..n];
      var i := LeadingSpaces(a, n);
      if i > 0 {
        MoveDown(a, 0, n - i + 1, i);
        sb.length := n - i;
        forall m | 0 <= m < n - i
          ensures a[m] == text[i..][m]
        {
          assert a[m] == old(a[m + i]);
        }
        assert sb.Elements() == text[i..];
      }
    }
  }

  /** ds_sb_rtrim: cut the trailing whitespace, writing a NUL at the new end when anything was cut. */
  method Rtrim(sb: Vec<char>)
    requires sb.Valid()
    modifies sb, sb.data
    ensures sb.Valid() && sb.data == old(sb.data)
    ensures sb.Elements() == TrimRight(old(sb.Elements()))
    ensures sb.length < old(sb.length) ==> sb.data[sb.length] == '\0'
    ensures sb.length == old(sb.length) ==> sb.data[..] == old(sb.data[..])
  {
    if sb.length > 0 {
      var a := sb.data;
      var n := sb.length;
      var i := TrailingSpaces(a, n);
      if i < n {
        a[i] := '\0';
        sb.length := i;
        assert sb.Elements() == old(a[..i]);
      }
    }
  }

  /** A DsStringIterator over `text`: the characters [start, start + length). */
  datatype Iter = Iter(start: nat, length: nat)

  predicate Within(text: string, it: Iter)
  {
    it.start + it.length <= |text|
  }

  function View(text: string, it: Iter): string
    requires Within(text, it)
  {
    text[it.start..it.start + it.length]
  }

  /**
   * ds_str_split: the part before the first `sep` and the iterator moved past
   * it (or to the end when there is none).  The source updates the iterator
   * through its pointer; here the moved iterator is returned.
   */
  method Split(text: string, it: Iter, sep: char) returns (part: Iter, next: Iter)
    requires Within(text, it)
    ensures Within(text, part) && Within(text, next)
    ensures it.length == 0 ==> part == Iter(0, 0) && next == it
    ensures it.length > 0 ==> part.start == it.start && part.length <= it.length
    ensures it.length > 0 ==> sep !in View(text, part)
    ensures it.length > 0 && part.length < it.length ==>
      text[it.start + part.length] == sep && next == Iter(it.start + part.length + 1, it.length - part.length - 1)
      && View(text, part) + [sep] + View(text, next) == View(text, it)
    ensures it.length > 0 && part.length == it.length ==> next == Iter(it.start + it.length, 0)
    ensures it.length > 0 ==> next.length < it.length
  {
    if it.length == 0 {
      return Iter(0, 0), it;
    }
    var i := 0;
    while i < it.length && text[it.start + i] != sep
      invariant 0 <= i <= it.length
      invariant sep !in text[it.start..it.start + i]
    {
      i := i + 1;
    }
    part := Iter(it.start, i);
    if i < it.length {
      next := Iter(it.start + i + 1, it.length - (i + 1));
      assert View(text, part) + [sep] + View(text, next) == View(text, it);
    } else {
      next := Iter(it.start + i, it.length - i);
    }
  }
}
