/** The tokenizer of the full-text module, on text without tags: UTF-8, the exceptions, and the scan for tokens. */
module Tokenizer {
  import opened Basics

  // ---------------------------------------------------------------- UTF-8

  /** The payload of a leading byte. */
  function Lead(b: byte): (c: int)
    requires b >= 0xc0
    ensures 0 <= c < 0x20
  {
    if b < 0xe0 then b - 0xc0
    else if b < 0xf0 then b - 0xe0
    else if b < 0xf8 then b - 0xf0
    else if b < 0xfc then b - 0xf8
    else if b < 0xfe then b - 0xfc
    else 0
  }

  predicate IsContinuation(b: byte) {
    0x80 <= b < 0xc0
  }

  /** A code point and where the next one starts. */
  datatype Read = Read(code: int, next: nat)

  /** All continuation bytes from i on. */
  function Continued(s: seq<byte>, i: nat, c: int): (r: Read)
    requires i <= |s|
    ensures i <= r.next <= |s|
    decreases |s| - i
  {
    if i < |s| && IsContinuation(s[i]) then Continued(s, i + 1, Low32(c * 64 + s[i] % 64)) else Read(c, i)
  }

  /** Overlong and forbidden codes are replaced. */
  function Checked(c: int): int {
    if c < 0x80 || 0xd800 <= c < 0xe000 || c == 0xfffe || c == 0xffff then 0xfffd else c
  }

  /** READ_UTF8. */
  function ReadAt(s: seq<byte>, i: nat): (r: Read)
    requires i < |s|
    ensures i < r.next <= |s|
  {
    if s[i] < 0xc0 then Read(s[i], i + 1)
    else
      var r := Continued(s, i + 1, Lead(s[i]));
      Read(Checked(r.code), r.next)
  }

  /** WRITE_UTF8. */
  function Written(c: int): (w: seq<byte>)
    requires 0 <= c < 0x20_0000
    ensures 1 <= |w| <= 4
  {
    var x := c / 64;
    var y := x / 64;
    if c < 0x80 then [c]
    else if c < 0x800 then [0xc0 + x, 0x80 + c % 64]
    else if c < 0x10000 then [0xe0 + y, 0x80 + x % 64, 0x80 + c % 64]
    else [0xf0 + y / 64, 0x80 + y % 64, 0x80 + x % 64, 0x80 + c % 64]
  }

  /** The codes that two, three and four bytes carry. */
  lemma Carried2(s: seq<byte>, x: int, c: int, rest: seq<byte>)
    requires 0 <= x < 32 && 0 <= c < 64 && s == [0xc0 + x, 0x80 + c] + rest
    requires rest == [] || !IsContinuation(rest[0])
    ensures s[0] >= 0xc0 && Continued(s, 1, Lead(s[0])) == Read(64 * x + c, 2)
  {
    assert s[0] == 0xc0 + x && s[1] == 0x80 + c && s[2..] == rest;
    hide Continued;
    ContinuedOver(s, 1, x, 1, rest);
  }

  lemma Digit(d: int)
    requires 0 <= d < 64
    ensures (0x80 + d) % 64 == d
  {
  }

  lemma Carried3(s: seq<byte>, y: int, x: int, c: int, rest: seq<byte>)
    requires 0 <= y < 16 && 0 <= x < 64 && 0 <= c < 64 && s == [0xe0 + y, 0x80 + x, 0x80 + c] + rest
    requires rest == [] || !IsContinuation(rest[0])
    ensures s[0] >= 0xc0 && Continued(s, 1, Lead(s[0])) == Read(64 * (64 * y + x) + c, 3)
  {
    assert s[0] == 0xe0 + y && s[1] == 0x80 + x && s[2] == 0x80 + c && s[3..] == rest;
    assert Lead(s[0]) == y && IsContinuation(s[1]) && IsContinuation(s[2]);
    hide Continued, IsContinuation, Lead;
    Digit(x);
    Digit(c);
    ContinuedOver(s, 1, y, 2, rest);
  }

  lemma Carried4(s: seq<byte>, z: int, y: int, x: int, c: int, rest: seq<byte>)
    requires 0 <= z < 8 && 0 <= y < 64 && 0 <= x < 64 && 0 <= c < 64
    requires s == [0xf0 + z, 0x80 + y, 0x80 + x, 0x80 + c] + rest
    requires rest == [] || !IsContinuation(rest[0])
    ensures s[0] >= 0xc0 && Continued(s, 1, Lead(s[0])) == Read(64 * (64 * (64 * z + y) + x) + c, 4)
  {
    assert s[0] == 0xf0 + z && s[1] == 0x80 + y && s[2] == 0x80 + x && s[3] == 0x80 + c && s[4..] == rest;
    assert Lead(s[0]) == z && IsContinuation(s[1]) && IsContinuation(s[2]) && IsContinuation(s[3]);
    hide Continued, IsContinuation, Lead;
    Digit(y);
    Digit(x);
    Digit(c);
    ContinuedOver(s, 1, z, 3, rest);
  }

  /** The code points that are not read back. */
  predicate Forbidden(c: int) {
    0xd800 <= c < 0xe000 || c == 0xfffe || c == 0xffff
  }

  /** A code point is read back as it was written, whatever follows it, if it is one that may be written; the
      others are read as U+FFFD. */
  lemma ReadsWritten(c: int, rest: seq<byte>)
    requires 0 <= c < 0x20_0000
    requires rest == [] || !IsContinuation(rest[0])
    ensures ReadAt(Written(c) + rest, 0) == Read(if Forbidden(c) then 0xfffd else c, |Written(c)|)
  {
    var s := Written(c) + rest;
    hide Continued, Lead;
    var x := c / 64;
    var y := x / 64;
    if 0x80 <= c < 0x800 {
      Carried2(s, x, c % 64, rest);
    } else if 0x800 <= c < 0x10000 {
      Carried3(s, y, x % 64, c % 64, rest);
    } else if c >= 0x10000 {
      Carried4(s, y / 64, y % 64, x % 64, c % 64, rest);
    }
  }

  /** Reading n continuation bytes. */
  lemma {:induction false} ContinuedOver(s: seq<byte>, i: nat, c: int, n: nat, rest: seq<byte>)
    requires n <= 3 && 0 <= c
    requires (if n == 0 then c < 0x20_0000 else if n == 1 then c < 0x8000 else if n == 2 then c < 0x200 else c < 8)
    requires i + n <= |s| && s[i + n..] == rest && (rest == [] || !IsContinuation(rest[0]))
    requires forall k :: i <= k < i + n ==> IsContinuation(s[k])
    ensures Continued(s, i, c).next == i + n
    ensures Continued(s, i, c).code == if n == 0 then c else if n == 1 then c * 64 + s[i] % 64
                                      else if n == 2 then (c * 64 + s[i] % 64) * 64 + s[i + 1] % 64
                                      else ((c * 64 + s[i] % 64) * 64 + s[i + 1] % 64) * 64 + s[i + 2] % 64
    decreases n
  {
    if n > 0 {
      ContinuedOver(s, i + 1, c * 64 + s[i] % 64, n - 1, rest);
    } else {
      assert i < |s| ==> s[i] == rest[0];
    }
  }

  /** All code points of a text from i on. */
  function Codes(s: seq<byte>, i: nat): (cs: seq<int>)
    requires i <= |s|
    decreases |s| - i
  {
    if i == |s| then []
    else
      var r := ReadAt(s, i);
      [r.code] + Codes(s, r.next)
  }

  /** What is read from i on does not depend on what stands before. */
  lemma {:induction false} ContinuedBehind(a: seq<byte>, s: seq<byte>, i: nat, c: int)
    requires i <= |s|
    ensures var r := Continued(s, i, c); Continued(a + s, |a| + i, c) == Read(r.code, |a| + r.next)
    decreases |s| - i
  {
    if i < |s| && IsContinuation(s[i]) {
      ContinuedBehind(a, s, i + 1, Low32(c * 64 + s[i] % 64));
    }
  }

  lemma ReadBehind(a: seq<byte>, s: seq<byte>, i: nat)
    requires i < |s|
    ensures var r := ReadAt(s, i); ReadAt(a + s, |a| + i) == Read(r.code, |a| + r.next)
  {
    hide Continued, Checked, Lead;
    assert (a + s)[|a| + i] == s[i];
    if s[i] >= 0xc0 {
      ContinuedBehind(a, s, i + 1, Lead(s[i]));
    }
  }

  lemma {:induction false} CodesBehind(a: seq<byte>, s: seq<byte>, i: nat)
    requires i <= |s|
    ensures Codes(a + s, |a| + i) == Codes(s, i)
    decreases |s| - i
  {
    hide ReadAt;
    if i < |s| {
      ReadBehind(a, s, i);
      CodesBehind(a, s, ReadAt(s, i).next);
    }
  }

  /** A code point written before a text is the first that is read. */
  lemma CodesOfWritten(c: int, rest: seq<byte>)
    requires 0 <= c < 0x20_0000
    requires rest == [] || !IsContinuation(rest[0])
    ensures Codes(Written(c) + rest, 0) == [if Forbidden(c) then 0xfffd else c] + Codes(rest, 0)
  {
    hide Written, ReadAt, Forbidden;
    ReadsWritten(c, rest);
    CodesBehind(Written(c), rest, 0);
  }

  // ---------------------------------------------------------------- exceptions

  /** The tables of Unicode properties: token characters, diacritics, and case folding (0 for nothing). */
  datatype Tables = Tables(alnum: int -> bool, diacritic: int -> bool, fold: (int, bool) -> CodePoint)

  type CodePoint = c: int | 0 <= c < 0x20_0000

  /** The codes among cs that an option asking for the class wanted makes exceptions. */
  function Asked(t: Tables, wanted: bool, cs: seq<int>): (r: seq<int>)
    ensures forall c :: c in r <==> c in cs && t.alnum(c) != wanted && !t.diacritic(c)
  {
    if cs == [] then []
    else (if t.alnum(cs[0]) != wanted && !t.diacritic(cs[0]) then [cs[0]] else []) + Asked(t, wanted, cs[1..])
  }

  ghost predicate IsToken(t: Tables, exceptions: seq<int>, code: int) {
    t.alnum(code) != (code in exceptions)
  }

  ghost predicate Sorted(a: seq<int>) {
    forall i, j :: 0 <= i < j < |a| ==> a[i] <= a[j]
  }

  lemma PlacedIs(b: seq<int>, a: seq<int>, i: nat, code: int)
    requires i <= |a| && |b| == |a| + 1 && b[i] == code
    requires (forall k :: 0 <= k < i ==> b[k] == a[k]) && (forall k :: i < k <= |a| ==> b[k] == a[k - 1])
    ensures b == a[..i] + [code] + a[i..]
  {
  }

  lemma PlacedSorted(a: seq<int>, i: nat, code: int)
    requires Sorted(a) && i <= |a| && (forall k :: 0 <= k < i ==> a[k] < code) && (i < |a| ==> a[i] >= code)
    ensures var b := a[..i] + [code] + a[i..];
            Sorted(b) && forall c :: c in b <==> c in a || c == code
  {
    assert a == a[..i] + a[i..];
  }

  class UnicodeTokenizer {
    const tables: Tables
    const removeDiacritic: bool
    var exceptions: array<int>
    var count: nat

    ghost predicate Valid()
      reads this, exceptions
    {
      count <= exceptions.Length && Sorted(exceptions[..count])
    }

    ghost function Exceptions(): seq<int>
      requires Valid()
      reads this, exceptions
    {
      exceptions[..count]
    }

    constructor (tables: Tables, removeDiacritic: bool)
      ensures Valid() && Exceptions() == [] && fresh(exceptions)
      ensures this.tables == tables && this.removeDiacritic == removeDiacritic
    {
      this.tables, this.removeDiacritic := tables, removeDiacritic;
      exceptions := new int[0];
      count := 0;
    }

    /** One code goes to its place; the larger ones move up in place. */
    static method InsertSorted(a: array<int>, n: nat, code: int)
      requires n < a.Length && Sorted(a[..n])
      modifies a
      ensures Sorted(a[..n + 1]) && forall c :: c in a[..n + 1] <==> c in old(a[..n]) || c == code
    {
      ghost var was := a[..n];
      var i := 0;
      while i < n && a[i] < code
        invariant 0 <= i <= n && forall k :: 0 <= k < i ==> was[k] < code
      {
        i := i + 1;
      }
      var j := n;
      while j > i
        invariant i <= j <= n
        invariant forall k :: 0 <= k < j ==> a[k] == was[k]
        invariant forall k :: j < k <= n ==> a[k] == was[k - 1]
      {
        a[j] := a[j - 1];
        j := j - 1;
      }
      a[i] := code;
      PlacedIs(a[..n + 1], was, i, code);
      PlacedSorted(was, i, code);
    }

    /** unicodeAddExceptions: the codes of the text that are not in the wanted class become exceptions. */
    method AddExceptions(wanted: bool, text: seq<byte>)
      requires Valid()
      modifies this
      ensures Valid() && (fresh(exceptions) || exceptions == old(exceptions))
      ensures forall c :: c in Exceptions() <==> c in old(Exceptions()) || c in Asked(tables, wanted, Codes(text, 0))
    {
      hide Codes;
      var entries := CountAsked(wanted, text);
      if entries == 0 {
        return;
      }
      var a := new int[count + entries];
      forall i | 0 <= i < count {
        a[i] := exceptions[i];
      }
      assert a[..count] == exceptions[..count];
      FillIn(a, wanted, text);
      exceptions := a;
      count := count + entries;
      assert a[..count] == a[..];
    }

    /** The first loop. */
    method CountAsked(wanted: bool, text: seq<byte>) returns (entries: nat)
      ensures entries == |Asked(tables, wanted, Codes(text, 0))|
    {
      entries := 0;
      var z := 0;
      while z < |text|
        invariant z <= |text|
        invariant entries + |Asked(tables, wanted, Codes(text, z))| == |Asked(tables, wanted, Codes(text, 0))|
        decreases |text| - z
      {
        var r := ReadAt(text, z);
        assert Codes(text, z)[1..] == Codes(text, r.next);
        if tables.alnum(r.code) != wanted && !tables.diacritic(r.code) {
          entries := entries + 1;
        }
        z := r.next;
      }
    }

    /** The second loop. */
    method FillIn(a: array<int>, wanted: bool, text: seq<byte>)
      requires Valid() && a != exceptions && a.Length == count + |Asked(tables, wanted, Codes(text, 0))|
      requires a[..count] == Exceptions()
      modifies a
      ensures Sorted(a[..])
      ensures forall c :: c in a[..] <==> c in Exceptions() || c in Asked(tables, wanted, Codes(text, 0))
    {
      var n, z := count, 0;
      while z < |text|
        invariant 0 <= z <= |text|
        invariant 0 <= n <= a.Length && n + |Asked(tables, wanted, Codes(text, z))| == a.Length
        invariant Sorted(a[..n])
        invariant forall c :: c in a[..n] || c in Asked(tables, wanted, Codes(text, z))
                    <==> c in Exceptions() || c in Asked(tables, wanted, Codes(text, 0))
        decreases |text| - z
      {
        var r := ReadAt(text, z);
        assert Codes(text, z)[1..] == Codes(text, r.next);
        if tables.alnum(r.code) != wanted && !tables.diacritic(r.code) {
          InsertSorted(a, n, r.code);
          n := n + 1;
        }
        z := r.next;
      }
      assert a[..n] == a[..];
    }

    /** unicodeIsException: binary search. */
    method IsException(code: int) returns (found: bool)
      requires Valid()
      ensures found <==> code in Exceptions()
    {
      var lo, hi := 0, count - 1;
      while hi >= lo
        invariant 0 <= lo <= hi + 1 <= count
        invariant forall k :: 0 <= k < lo ==> exceptions[k] < code
        invariant forall k :: hi < k < count ==> exceptions[k] > code
        decreases hi - lo
      {
        var test := (hi + lo) / 2;
        if code == exceptions[test] {
          assert exceptions[..count][test] == code;
          return true;
        } else if code > exceptions[test] {
          assert forall k :: 0 <= k <= test ==> exceptions[..count][k] <= exceptions[..count][test];
          lo := test + 1;
        } else {
          assert forall k :: test <= k < count ==> exceptions[..count][k] >= exceptions[..count][test];
          hi := test - 1;
        }
      }
      return false;
    }

    /** Is this, for the tokenizer, a token character? */
    ghost predicate TokenCode(code: int)
      requires Valid()
      reads this, exceptions
    {
      IsToken(tables, Exceptions(), code)
    }

    /** unicodeIsAlnum. */
    method IsAlnum(code: int) returns (r: bool)
      requires Valid()
      ensures r == TokenCode(code)
    {
      var e := IsException(code);
      r := tables.alnum(code) != e;
    }
  }

  /** An option of the tokenizer: tokenchars (true) or separators (false), and its text. */
  datatype Setting = Setting(tokens: bool, text: seq<byte>)

  /** The codes whose class some option wants to be the other one. */
  ghost predicate Inverted(t: Tables, settings: seq<Setting>, code: int) {
    exists i :: 0 <= i < |settings| && code in Asked(t, settings[i].tokens, Codes(settings[i].text, 0))
  }

  /** unicodeCreate: the options one after the other; in any order they invert the same codes. */
  method Create(tables: Tables, removeDiacritic: bool, settings: seq<Setting>) returns (t: UnicodeTokenizer)
    ensures t.Valid() && t.tables == tables && t.removeDiacritic == removeDiacritic && fresh(t) && fresh(t.exceptions)
    ensures forall c :: t.TokenCode(c) <==> tables.alnum(c) != Inverted(tables, settings, c)
  {
    t := new UnicodeTokenizer(tables, removeDiacritic);
    for i := 0 to |settings|
      invariant t.Valid() && t.tables == tables && t.removeDiacritic == removeDiacritic && fresh(t)
      invariant fresh(t.exceptions)
      invariant forall c :: c in t.Exceptions() <==> Inverted(tables, settings[..i], c)
    {
      InvertedOn(tables, settings, i);
      t.AddExceptions(settings[i].tokens, settings[i].text);
    }
    assert settings[..|settings|] == settings;
  }

  lemma InvertedOn(t: Tables, settings: seq<Setting>, i: nat)
    requires i < |settings|
    ensures forall c :: Inverted(t, settings[..i + 1], c) <==>
              Inverted(t, settings[..i], c) || c in Asked(t, settings[i].tokens, Codes(settings[i].text, 0))
  {
    hide Asked, Codes;
    var all, some := settings[..i + 1], settings[..i];
    assert forall k :: 0 <= k < i ==> all[k] == some[k];
    assert all[i] == settings[i];
  }

  // ---------------------------------------------------------------- the scan

  /** Where the first token character at or after i starts. */
  ghost function FirstToken(t: Tables, ex: seq<int>, s: seq<byte>, i: nat): (o: nat)
    requires i <= |s|
    ensures i <= o <= |s| && (o < |s| ==> IsToken(t, ex, ReadAt(s, o).code))
    decreases |s| - i
  {
    if i == |s| then i
    else
      var r := ReadAt(s, i);
      if IsToken(t, ex, r.code) then i else FirstToken(t, ex, s, r.next)
  }

  ghost predicate Continues(t: Tables, ex: seq<int>, code: int) {
    IsToken(t, ex, code) || t.diacritic(code)
  }

  /** Where the run of token and diacritic characters from i on ends. */
  ghost function RunEnd(t: Tables, ex: seq<int>, s: seq<byte>, i: nat): (e: nat)
    requires i <= |s|
    ensures i <= e <= |s| && (e < |s| ==> !Continues(t, ex, ReadAt(s, e).code))
    decreases |s| - i
  {
    if i == |s| then i
    else
      var r := ReadAt(s, i);
      if Continues(t, ex, r.code) then RunEnd(t, ex, s, r.next) else i
  }

  function FoldedBytes(t: Tables, remove: bool, code: int): seq<byte> {
    var f := t.fold(code, remove);
    if f == 0 then [] else Written(f)
  }

  /** The folded text of the characters from i to e. */
  function Folded(t: Tables, remove: bool, s: seq<byte>, i: nat, e: nat): seq<byte>
    requires e <= |s|
    decreases |s| - i
  {
    if i >= e then []
    else
      var r := ReadAt(s, i);
      FoldedBytes(t, remove, r.code) + Folded(t, remove, s, r.next, e)
  }

  /** The code points of the characters from i to e. */
  function CodesBetween(s: seq<byte>, i: nat, e: nat): seq<int>
    requires e <= |s|
    decreases |s| - i
  {
    if i >= e then []
    else
      var r := ReadAt(s, i);
      [r.code] + CodesBetween(s, r.next, e)
  }

  /** What they fold to, where that is something; a code point that may not be written comes out as U+FFFD. */
  function Folds(t: Tables, remove: bool, cs: seq<int>): seq<int> {
    if cs == [] then []
    else
      var f := t.fold(cs[0], remove);
      (if f == 0 then [] else [if Forbidden(f) then 0xfffd else f]) + Folds(t, remove, cs[1..])
  }

  lemma WrittenBegins(c: int)
    requires 0 <= c < 0x20_0000
    ensures !IsContinuation(Written(c)[0])
  {
  }

  /** The code points read from a folded text are what those of the run fold to. */
  lemma {:induction false} FoldedCodes(t: Tables, remove: bool, s: seq<byte>, i: nat, e: nat)
    requires e <= |s|
    ensures Codes(Folded(t, remove, s, i, e), 0) == Folds(t, remove, CodesBetween(s, i, e))
    ensures var text := Folded(t, remove, s, i, e); text == [] || !IsContinuation(text[0])
    decreases |s| - i
  {
    hide Written, ReadAt, Forbidden, IsContinuation;
    if i < e {
      var r := ReadAt(s, i);
      FoldedCodes(t, remove, s, r.next, e);
      var rest, f := Folded(t, remove, s, r.next, e), t.fold(r.code, remove);
      assert CodesBetween(s, i, e)[1..] == CodesBetween(s, r.next, e);
      if f == 0 {
        assert [] + rest == rest;
      } else {
        WrittenBegins(f);
        CodesOfWritten(f, rest);
      }
    }
  }

  datatype Token = Token(text: seq<byte>, start: nat, end: nat, position: nat)

  /** The token that begins at the token character at o. */
  ghost function TokenAt(t: Tables, ex: seq<int>, remove: bool, s: seq<byte>, o: nat, position: nat): Token
    requires o < |s|
  {
    var e := RunEnd(t, ex, s, ReadAt(s, o).next);
    Token(Folded(t, remove, s, o, e), o, e, position)
  }

  lemma OneMoreFolded(t: Tables, remove: bool, s: seq<byte>, i: nat, e: nat, before: seq<byte>)
    requires i < e <= |s|
    ensures var r := ReadAt(s, i);
            before + FoldedBytes(t, remove, r.code) + Folded(t, remove, s, r.next, e)
            == before + Folded(t, remove, s, i, e)
  {
  }

  lemma NothingFolded(t: Tables, remove: bool, s: seq<byte>, e: nat)
    requires e <= |s|
    ensures Folded(t, remove, s, e, e) == [] && forall out: seq<byte> :: out + Folded(t, remove, s, e, e) == out
  {
  }

  lemma OneMoreRun(t: Tables, ex: seq<int>, s: seq<byte>, z: nat)
    requires z <= |s|
    ensures RunEnd(t, ex, s, z) ==
            if z < |s| && Continues(t, ex, ReadAt(s, z).code) then RunEnd(t, ex, s, ReadAt(s, z).next) else z
  {
  }

  class Cursor {
    const tokenizer: UnicodeTokenizer
    const input: seq<byte>
    var off: nat
    var tokens: nat

    ghost predicate Valid()
      reads this, tokenizer, tokenizer.exceptions
    {
      tokenizer.Valid() && off <= |input|
    }

    /** unicodeOpen. */
    constructor (t: UnicodeTokenizer, text: seq<byte>)
      requires t.Valid()
      ensures Valid() && tokenizer == t && input == text && off == 0 && tokens == 0
    {
      tokenizer, input, off, tokens := t, text, 0, 0;
    }

    /** The first loop of unicodeNext. */
    method Skip() returns (start: nat, z: nat, code: int)
      requires Valid()
      ensures start == FirstToken(tokenizer.tables, tokenizer.Exceptions(), input, off)
      ensures start < |input| ==> ReadAt(input, start) == Read(code, z)
    {
      z, start, code := off, off, 0;
      ghost var t, ex := tokenizer.tables, tokenizer.Exceptions();
      while z < |input|
        invariant start == z <= |input|
        invariant FirstToken(t, ex, input, off) == FirstToken(t, ex, input, z)
        decreases |input| - z
      {
        var r := ReadAt(input, z);
        code, z := r.code, r.next;
        var token := tokenizer.IsAlnum(code);
        if token {
          return;
        }
        start := z;
      }
    }

    /** The second loop of unicodeNext: the token's characters are folded until one that does not belong to it. */
    method Collect(start: nat, first: nat, firstCode: int) returns (out: seq<byte>, end: nat, z: nat)
      requires Valid() && start < |input| && ReadAt(input, start) == Read(firstCode, first)
      ensures end == RunEnd(tokenizer.tables, tokenizer.Exceptions(), input, first)
      ensures out == Folded(tokenizer.tables, tokenizer.removeDiacritic, input, start, end)
      ensures z == if end == |input| then end else ReadAt(input, end).next
    {
      hide ReadAt, IsToken, FoldedBytes, RunEnd, Folded;
      ghost var t, ex, remove := tokenizer.tables, tokenizer.Exceptions(), tokenizer.removeDiacritic;
      var code := firstCode;
      out, end, z := [], first, first;
      ghost var last, e := start, RunEnd(t, ex, input, z);
      assert out + Folded(t, remove, input, start, e) == Folded(t, remove, input, start, e);
      while true
        invariant start <= last < z <= |input| && ReadAt(input, last) == Read(code, z)
        invariant RunEnd(t, ex, input, z) == e
        invariant out + Folded(t, remove, input, last, e) == Folded(t, remove, input, start, e)
        decreases |input| - z
      {
        end := z;
        ghost var before := out;
        out := out + FoldedBytes(tokenizer.tables, tokenizer.removeDiacritic, code);
        OneMoreFolded(t, remove, input, last, e, before);
        OneMoreRun(t, ex, input, z);
        if z >= |input| {
          break;
        }
        last := z;
        var r := ReadAt(input, z);
        code, z := r.code, r.next;
        var more := tokenizer.IsAlnum(code);
        if !more && !tokenizer.tables.diacritic(code) {
          break;
        }
      }
      NothingFolded(t, remove, input, e);
    }

    /** unicodeNext, without a stemmer: the next token, or none, and where the search for the one after it begins. */
    method Next() returns (token: Option<Token>)
      requires Valid() && 0x3c !in input
      modifies this
      ensures Valid()
      ensures var t, ex, remove := tokenizer.tables, tokenizer.Exceptions(), tokenizer.removeDiacritic;
              var start := FirstToken(t, ex, input, old(off));
              if start == |input| then token == None && off == old(off) && tokens == old(tokens)
              else
                var at := TokenAt(t, ex, remove, input, start, old(tokens));
                && token == Some(at) && tokens == old(tokens) + 1
                && off == if at.end == |input| then at.end else ReadAt(input, at.end).next
    {
      hide FirstToken, RunEnd, Folded, ReadAt;
      var start, z, code := Skip();
      if start >= |input| {
        return None;
      }
      var out, end, next := Collect(start, z, code);
      off := next;
      token := Some(Token(out, start, end, tokens));
      tokens := tokens + 1;
    }
  }

  // ---------------------------------------------------------------- all tokens of a text

  /** Where the characters of a text start, from i on. */
  ghost function Starts(s: seq<byte>, i: nat): (os: set<nat>)
    requires i <= |s|
    ensures forall o :: o in os ==> i <= o < |s|
    decreases |s| - i
  {
    if i == |s| then {} else {i} + Starts(s, ReadAt(s, i).next)
  }

  /** The search for a token passes no token character, and ends at a start of a character. */
  lemma {:induction false} SkipsNone(t: Tables, ex: seq<int>, s: seq<byte>, i: nat)
    requires i <= |s|
    ensures var f := FirstToken(t, ex, s, i);
            && (f < |s| ==> f in Starts(s, i)) && Starts(s, f) <= Starts(s, i)
            && forall o :: o in Starts(s, i) ==> if o < f then !IsToken(t, ex, ReadAt(s, o).code) else o in Starts(s, f)
    decreases |s| - i
  {
    hide IsToken, ReadAt;
    if i < |s| && FirstToken(t, ex, s, i) != i {
      SkipsNone(t, ex, s, ReadAt(s, i).next);
    }
  }

  /** A run holds nothing but token and diacritic characters. */
  lemma {:induction false} RunsOn(t: Tables, ex: seq<int>, s: seq<byte>, i: nat)
    requires i <= |s|
    ensures var e := RunEnd(t, ex, s, i);
            && (e < |s| ==> e in Starts(s, i)) && Starts(s, e) <= Starts(s, i)
            && forall o :: o in Starts(s, i) ==>
                 if o < e then Continues(t, ex, ReadAt(s, o).code) else o in Starts(s, e)
    decreases |s| - i
  {
    hide Continues, ReadAt;
    OneMoreRun(t, ex, s, i);
    if i < |s| && RunEnd(t, ex, s, i) != i {
      RunsOn(t, ex, s, ReadAt(s, i).next);
    }
  }

  /** start to end is a maximal run that begins with a token character. */
  ghost predicate MaximalRun(t: Tables, ex: seq<int>, s: seq<byte>, start: nat, end: nat) {
    && start < end <= |s| && start in Starts(s, 0) && IsToken(t, ex, ReadAt(s, start).code)
    && (forall o :: o in Starts(s, 0) && start <= o < end ==> Continues(t, ex, ReadAt(s, o).code))
    && (end < |s| ==> end in Starts(s, 0) && !Continues(t, ex, ReadAt(s, end).code))
  }

  /**
   * The tokens up to off: maximal runs in order, numbered, with their folded text, that leave out no token
   * character.
   */
  ghost predicate Tokens(t: Tables, ex: seq<int>, remove: bool, s: seq<byte>, tokens: seq<Token>, off: nat)
    requires off <= |s|
  {
    && (forall k :: 0 <= k < |tokens| ==>
          && MaximalRun(t, ex, s, tokens[k].start, tokens[k].end) && tokens[k].end <= off
          && tokens[k].position == k && tokens[k].text == Folded(t, remove, s, tokens[k].start, tokens[k].end))
    && (forall j, k :: 0 <= j < k < |tokens| ==> tokens[j].end < tokens[k].start)
    && (forall o :: o in Starts(s, 0) && o < off && IsToken(t, ex, ReadAt(s, o).code) ==>
          exists k :: 0 <= k < |tokens| && tokens[k].start <= o < tokens[k].end)
  }

  /** A position from which the search goes on: the end, or behind a character that belongs to no token. */
  ghost predicate Resumes(s: seq<byte>, tokens: seq<Token>, off: nat)
    requires off <= |s|
  {
    && (forall o :: o in Starts(s, 0) && o >= off ==> o in Starts(s, off))
    && (forall o :: o in Starts(s, off) ==> o in Starts(s, 0))
    && (forall k :: 0 <= k < |tokens| ==> tokens[k].end < off || off == |s|)
  }

  /** The next token is a maximal run, and what lies between it and the last one holds no token character. */
  lemma NextRun(t: Tables, ex: seq<int>, s: seq<byte>, off: nat, f: nat, e: nat)
    requires off <= |s| && (forall o :: o in Starts(s, 0) && o >= off ==> o in Starts(s, off))
    requires Starts(s, off) <= Starts(s, 0)
    requires f == FirstToken(t, ex, s, off) < |s| && e == RunEnd(t, ex, s, ReadAt(s, f).next)
    ensures MaximalRun(t, ex, s, f, e) && off <= f
    ensures forall o :: o in Starts(s, 0) && off <= o < f ==> !IsToken(t, ex, ReadAt(s, o).code)
    ensures Starts(s, e) <= Starts(s, 0) && forall o :: o in Starts(s, 0) && o >= e ==> o in Starts(s, e)
  {
    hide IsToken, ReadAt, FirstToken, RunEnd;
    SkipsNone(t, ex, s, off);
    RunsOn(t, ex, s, ReadAt(s, f).next);
    assert Starts(s, f) == {f} + Starts(s, ReadAt(s, f).next);
    TokenCharacterContinues(t, ex, ReadAt(s, f).code);
  }

  /** Where the search goes on behind a run: past the character that ended it, which is in no token. */
  lemma BehindRun(t: Tables, ex: seq<int>, s: seq<byte>, e: nat, next: nat)
    requires e <= |s| && (e < |s| ==> !Continues(t, ex, ReadAt(s, e).code))
    requires next == if e == |s| then e else ReadAt(s, e).next
    requires Starts(s, e) <= Starts(s, 0) && forall o :: o in Starts(s, 0) && o >= e ==> o in Starts(s, e)
    ensures Starts(s, next) <= Starts(s, 0) && forall o :: o in Starts(s, 0) && o >= next ==> o in Starts(s, next)
    ensures forall o :: o in Starts(s, 0) && e <= o < next ==> !IsToken(t, ex, ReadAt(s, o).code)
  {
    hide IsToken, ReadAt;
    assert e < |s| ==> Starts(s, e) == {e} + Starts(s, next);
  }

  /** One call of unicodeNext adds the next token. */
  lemma OneMoreToken(t: Tables, ex: seq<int>, remove: bool, s: seq<byte>, tokens: seq<Token>, off: nat)
    requires off <= |s| && Tokens(t, ex, remove, s, tokens, off) && Resumes(s, tokens, off)
    requires FirstToken(t, ex, s, off) < |s|
    ensures var at := TokenAt(t, ex, remove, s, FirstToken(t, ex, s, off), |tokens|);
            var next := if at.end == |s| then at.end else ReadAt(s, at.end).next;
            && off < next && Tokens(t, ex, remove, s, tokens + [at], next) && Resumes(s, tokens + [at], next)
  {
    hide IsToken, ReadAt, Folded, FirstToken, RunEnd, Starts, Continues, MaximalRun;
    var f := FirstToken(t, ex, s, off);
    var e := RunEnd(t, ex, s, ReadAt(s, f).next);
    var next := if e == |s| then e else ReadAt(s, e).next;
    NextRun(t, ex, s, off, f, e);
    BehindRun(t, ex, s, e, next);
    MoreTokens(t, ex, remove, s, tokens, off, TokenAt(t, ex, remove, s, f, |tokens|), next);
  }

  lemma MoreTokens(t: Tables, ex: seq<int>, remove: bool, s: seq<byte>, tokens: seq<Token>, off: nat, at: Token,
                   next: nat)
    requires off <= next <= |s| && Tokens(t, ex, remove, s, tokens, off)
    requires forall k :: 0 <= k < |tokens| ==> tokens[k].end < off || off == |s|
    requires MaximalRun(t, ex, s, at.start, at.end) && off <= at.start && at.end <= next
    requires at.position == |tokens| && at.text == Folded(t, remove, s, at.start, at.end)
    requires forall o :: o in Starts(s, 0) && (off <= o < at.start || at.end <= o < next) ==>
               !IsToken(t, ex, ReadAt(s, o).code)
    ensures Tokens(t, ex, remove, s, tokens + [at], next)
  {
    hide MaximalRun, Starts, IsToken, ReadAt, Folded;
    assert at.start < at.end <= |s| by {
      RunIsOrdered(t, ex, s, at.start, at.end);
    }
    var more := tokens + [at];
    assert forall k :: 0 <= k < |tokens| ==> more[k] == tokens[k];
    forall o | o in Starts(s, 0) && o < next && IsToken(t, ex, ReadAt(s, o).code)
      ensures exists k :: 0 <= k < |more| && more[k].start <= o < more[k].end
    {
      if o < off {
        var k :| 0 <= k < |tokens| && tokens[k].start <= o < tokens[k].end;
        assert more[k].start <= o < more[k].end;
      } else {
        assert more[|tokens|].start <= o < more[|tokens|].end;
      }
    }
  }

  lemma RunIsOrdered(t: Tables, ex: seq<int>, s: seq<byte>, start: nat, end: nat)
    requires MaximalRun(t, ex, s, start, end)
    ensures start < end <= |s|
  {
  }

  lemma TokenCharacterContinues(t: Tables, ex: seq<int>, code: int)
    ensures IsToken(t, ex, code) ==> Continues(t, ex, code)
  {
  }

  /** Calling unicodeNext until it is done gives all tokens of the text. */
  method Tokenize(tokenizer: UnicodeTokenizer, text: seq<byte>) returns (tokens: seq<Token>)
    requires tokenizer.Valid() && 0x3c !in text
    ensures Tokens(tokenizer.tables, tokenizer.Exceptions(), tokenizer.removeDiacritic, text, tokens, |text|)
    ensures forall k :: 0 <= k < |tokens| ==>
              TextIsFolded(tokenizer.tables, tokenizer.removeDiacritic, text, tokens[k])
  {
    hide FirstToken, TokenAt, Tokens, Resumes, TextIsFolded;
    var cursor := new Cursor(tokenizer, text);
    ghost var t, ex, remove := tokenizer.tables, tokenizer.Exceptions(), tokenizer.removeDiacritic;
    tokens := [];
    NoTokensYet(t, ex, remove, text);
    while true
      invariant cursor.Valid() && fresh(cursor) && cursor.tokenizer == tokenizer && cursor.input == text
      invariant tokenizer.Exceptions() == ex && cursor.tokens == |tokens|
      invariant Tokens(t, ex, remove, text, tokens, cursor.off) && Resumes(text, tokens, cursor.off)
      decreases |text| - cursor.off
    {
      ghost var off := cursor.off;
      var token := cursor.Next();
      if token.None? {
        NoTokensLeft(t, ex, remove, text, tokens, off);
        TextsAreFolded(t, ex, remove, text, tokens);
        return;
      }
      OneMoreToken(t, ex, remove, text, tokens, off);
      tokens := tokens + [token.value];
    }
  }

  lemma NoTokensYet(t: Tables, ex: seq<int>, remove: bool, s: seq<byte>)
    ensures Tokens(t, ex, remove, s, [], 0) && Resumes(s, [], 0)
  {
  }

  lemma NoTokensLeft(t: Tables, ex: seq<int>, remove: bool, s: seq<byte>, tokens: seq<Token>, off: nat)
    requires off <= |s| && Tokens(t, ex, remove, s, tokens, off) && Resumes(s, tokens, off)
    requires FirstToken(t, ex, s, off) == |s|
    ensures Tokens(t, ex, remove, s, tokens, |s|)
  {
    hide IsToken, ReadAt, Folded, FirstToken;
    SkipsNone(t, ex, s, off);
  }

  /** The code points read from a token's text are what those of its run fold to. */
  ghost predicate TextIsFolded(t: Tables, remove: bool, s: seq<byte>, token: Token) {
    token.end <= |s| && Codes(token.text, 0) == Folds(t, remove, CodesBetween(s, token.start, token.end))
  }

  lemma TextsAreFolded(t: Tables, ex: seq<int>, remove: bool, s: seq<byte>, tokens: seq<Token>)
    requires Tokens(t, ex, remove, s, tokens, |s|)
    ensures forall k :: 0 <= k < |tokens| ==> TextIsFolded(t, remove, s, tokens[k])
  {
    hide MaximalRun, Codes, Folds, CodesBetween, Folded, Starts, IsToken, ReadAt;
    forall k | 0 <= k < |tokens| ensures TextIsFolded(t, remove, s, tokens[k]) {
      FoldedCodes(t, remove, s, tokens[k].start, tokens[k].end);
    }
  }
}
