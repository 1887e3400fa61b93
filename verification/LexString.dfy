/** String literals: as PrintString writes them (print.c) and as read_string reads them (llex.c). */
module LexString {
  import opened Wrappers
  import opened LuaProto
  import opened DumpStream
  import opened DumpWrite

  const QUOTE := 34
  const BACKSLASH := 92
  const NEWLINE := 10
  const RETURN := 13
  const MAX_INT := 0x7FFF_FFFD

  predicate IsDigit(c: int) { 48 <= c <= 57 }

  /** isprint, in the C locale. */
  predicate IsPrint(c: Byte) { 32 <= c <= 126 }

  predicate IsNewline(c: int) { c == NEWLINE || c == RETURN }

  // The escapes with a letter, from bell to vertical tab.
  function LetterOf(c: Byte): Option<Byte> {
    if c == 7 then Some(97) else if c == 8 then Some(98) else if c == 12 then Some(102) else if c == 10 then Some(110)
    else if c == 13 then Some(114) else if c == 9 then Some(116) else if c == 11 then Some(118) else None
  }

  function ByLetter(e: int): Option<Byte> {
    if e == 97 then Some(7) else if e == 98 then Some(8) else if e == 102 then Some(12) else if e == 110 then Some(10)
    else if e == 114 then Some(13) else if e == 116 then Some(9) else if e == 118 then Some(11) else None
  }

  /** What PrintString writes for one byte. */
  function Escape(c: Byte): Str {
    if c == QUOTE || c == BACKSLASH then [BACKSLASH, c]
    else if LetterOf(c).Some? then [BACKSLASH, LetterOf(c).val]
    else if IsPrint(c) then [c]
    else [BACKSLASH, 48 + c / 100, 48 + c / 10 % 10, 48 + c % 10]
  }

  function Escaped(s: Str): Str { if s == [] then [] else Escape(s[0]) + Escaped(s[1..]) }

  /** PrintString. */
  method PrintString(s: Str) returns (out: Str)
    ensures out == [QUOTE] + Escaped(s) + [QUOTE]
  {
    hide Escape;
    out := [QUOTE];
    var i := 0;
    while i < |s|
      invariant 0 <= i <= |s| && out + Escaped(s[i..]) == [QUOTE] + Escaped(s)
    {
      out := out + Escape(s[i]);
      assert s[i..][1..] == s[i + 1..];
      i := i + 1;
    }
    assert Escaped(s[i..]) == [];
    assert out == [QUOTE] + Escaped(s);
    out := out + [QUOTE];
  }

  datatype LexError = UnfinishedAtEnd | UnfinishedLine | EscapeTooLarge | TooManyLines

  datatype Scan = Text(val: Str, rest: Str, line: nat) | Failed(error: LexError)

  function Saved(c: Byte, r: Scan): Scan { if r.Text? then r.(val := [c] + r.val) else r }

  /** The value of up to three decimal digits, and how many there are. */
  function Digits(s: Str): (r: (nat, nat))
    ensures r.1 <= 3 && r.1 <= |s| && (s != [] && IsDigit(s[0]) ==> r.1 > 0)
  {
    if s == [] || !IsDigit(s[0]) then (0, 0)
    else if |s| == 1 || !IsDigit(s[1]) then (s[0] as int - 48, 1)
    else if |s| == 2 || !IsDigit(s[2]) then (10 * (s[0] as int - 48) + (s[1] as int - 48), 2)
    else (10 * (10 * (s[0] as int - 48) + (s[1] as int - 48)) + (s[2] as int - 48), 3)
  }

  /** A line break is one byte, or two different ones. */
  function BreakSize(s: Str): (n: nat)
    requires s != []
    ensures 1 <= n <= |s|
  { if |s| > 1 && IsNewline(s[1]) && s[1] != s[0] then 2 else 1 }

  /** The rest of a string literal, after its first delimiter (section 2.1 of the Lua 5.1 Reference Manual). */
  function Body(s: Str, del: Byte, line: nat): Scan
    decreases |s|
  {
    if s == [] then Failed(UnfinishedAtEnd)
    else if s[0] == del then Text([], s[1..], line)
    else if IsNewline(s[0]) then Failed(UnfinishedLine)
    else if s[0] != BACKSLASH then Saved(s[0], Body(s[1..], del, line))
    else if |s| == 1 then Failed(UnfinishedAtEnd)
    else if ByLetter(s[1]).Some? then Saved(ByLetter(s[1]).val, Body(s[2..], del, line))
    else if IsNewline(s[1]) then
      if line + 1 >= MAX_INT then Failed(TooManyLines) else Saved(NEWLINE, Body(s[1 + BreakSize(s[1..])..], del, line + 1))
    else if !IsDigit(s[1]) then Saved(s[1], Body(s[2..], del, line))
    else
      var (c, n) := Digits(s[1..]);
      if c > 255 then Failed(EscapeTooLarge) else Saved(c, Body(s[1 + n..], del, line))
  }

  /** Reading what PrintString wrote for one byte. */
  lemma ReadEscape(c: Byte, t: Str, line: nat)
    ensures Body(Escape(c) + t, QUOTE, line) == Saved(c, Body(t, QUOTE, line))
  {
    var e := Escape(c);
    if |e| == 1 {
      assert (e + t)[1..] == t;
    } else if |e| == 2 {
      assert (e + t)[2..] == t;
    } else {
      var s := (e + t)[1..];
      assert e + t == [BACKSLASH] + s && s[0] == 48 + c / 100 && s[1] == 48 + c / 10 % 10 && s[2] == 48 + c % 10;
      assert c == 100 * (c / 100) + 10 * (c / 10 % 10) + c % 10;
      assert (e + t)[4..] == t;
    }
  }

  /** What PrintString writes for a string is a literal for exactly this string, whatever follows. */
  lemma {:induction false} ReadPrinted(s: Str, t: Str, line: nat)
    ensures Body(Escaped(s) + [QUOTE] + t, QUOTE, line) == Text(s, t, line)
  {
    hide Escape;
    if s == [] {
      assert [QUOTE] + t == [] + [QUOTE] + t && ([QUOTE] + t)[1..] == t;
    } else {
      var more := Escaped(s[1..]) + [QUOTE] + t;
      assert Escaped(s) + [QUOTE] + t == Escape(s[0]) + more;
      ReadEscape(s[0], more, line);
      ReadPrinted(s[1..], t, line);
      assert [s[0]] + s[1..] == s;
    }
  }

  /** What has been saved already, before the rest of the literal. */
  ghost function SavedAll(b: Str, r: Scan): Scan { if r.Text? then r.(val := b + r.val) else r }

  lemma SaveOne(b: Str, c: Byte, r: Scan)
    ensures SavedAll(b, Saved(c, r)) == SavedAll(b + [c], r)
  {
    if r.Text? { assert b + ([c] + r.val) == b + [c] + r.val; }
  }

  datatype Token = StringToken(val: Str) | LexFailure(error: LexError)

  class LexState {
    const z: Zio
    var current: int
    var buff: Str
    var linenumber: nat

    ghost predicate Valid()
      reads this, z
    { z.Valid() && EOZ <= current < 256 }

    /** The input from the current byte on; at the end there is no current byte. */
    ghost function Input(): Str
      reads this, z
      requires Valid()
    { if current == EOZ then [] else [current] + z.Rest() }

    /** luaX_setinput. */
    constructor (z: Zio)
      requires z.Valid()
      modifies z
      ensures this.z == z && Valid() && linenumber == 1 && buff == [] && Input() == old(z.Rest())
    {
      this.z, linenumber, buff := z, 1, [];
      var c := z.Getc();
      current := c;
    }

    method Next()
      requires Valid() && current != EOZ
      modifies z, `current
      ensures Valid() && Input() == old(Input())[1..]
    {
      ghost var rest := z.Rest();
      current := z.Getc();
      assert ([old(current)] + rest)[1..] == rest;
    }

    method SaveAndNext()
      requires Valid() && current != EOZ
      modifies z, `current, `buff
      ensures Valid() && Input() == old(Input())[1..] && buff == old(buff) + [old(Input())[0]]
    {
      buff := buff + [current];
      Next();
    }

    /** inclinenumber. */
    method IncLineNumber() returns (ok: bool)
      requires Valid() && IsNewline(current)
      modifies z, `current, `linenumber
      ensures Valid() && Input() == old(Input())[BreakSize(old(Input()))..]
      ensures ok == (old(linenumber) + 1 < MAX_INT) && linenumber == old(linenumber) + 1
    {
      var first := current;
      Next();
      if IsNewline(current) && current != first { Next(); }
      linenumber := linenumber + 1;
      ok := linenumber < MAX_INT;
    }

    /** The digits of a numeric escape. */
    method ReadDigits() returns (c: nat)
      requires Valid() && IsDigit(current)
      modifies z, `current
      ensures Valid() && c == Digits(old(Input())).0 && Input() == old(Input())[Digits(old(Input())).1..]
    {
      ghost var s := Input();
      c := current - 48;
      Next();
      var i := 1;
      while i < 3 && IsDigit(current)
        invariant Valid() && 1 <= i <= 3 && i <= |s| && Input() == s[i..] && forall k :: 0 <= k < i ==> IsDigit(s[k])
        invariant c == if i == 1 then s[0] as int - 48 else if i == 2 then 10 * (s[0] as int - 48) + (s[1] as int - 48)
          else 10 * (10 * (s[0] as int - 48) + (s[1] as int - 48)) + (s[2] as int - 48)
      {
        assert current == s[i];
        c := 10 * c + (current - 48);
        Next();
        i := i + 1;
      }
    }

    /** One escape sequence, from its backslash on. */
    method ReadEscaped(ghost del: Byte) returns (err: Option<LexError>)
      requires Valid() && current == BACKSLASH && del != BACKSLASH
      modifies z, `current, `buff, `linenumber
      ensures Valid() && |buff| >= |old(buff)| && |Input()| < |old(Input())|
      ensures Goes(old(Input()), del, old(linenumber), old(buff), err, Input(), linenumber, buff)
    {
      hide Digits, BreakSize;
      ghost var s := Input();
      Next();
      if current == EOZ { return None; }
      assert Input() == s[1..] && current == s[1];
      if ByLetter(current).Some? {
        buff := buff + [ByLetter(current).val];
        Next();
        assert Input() == s[2..];
      } else if IsNewline(current) {
        buff := buff + [NEWLINE];
        var ok := IncLineNumber();
        if !ok { return Some(TooManyLines); }
        assert Input() == s[1 + BreakSize(s[1..])..];
      } else if !IsDigit(current) {
        SaveAndNext();
        assert Input() == s[2..];
      } else {
        var c := ReadDigits();
        if c > 255 { return Some(EscapeTooLarge); }
        assert Input() == s[1 + Digits(s[1..]).1..];
        buff := buff + [c];
      }
      err := None;
    }

    /** read_string. */
    method ReadString(del: Byte) returns (t: Token)
      requires Valid() && current == del && del != BACKSLASH && !IsNewline(del) && buff == []
      modifies z, `current, `buff, `linenumber
      ensures Valid() && Lexed(Body(old(Input())[1..], del, old(linenumber)), t, Input(), linenumber)
    {
      hide Goes;
      ghost var all := Body(Input()[1..], del, linenumber);
      SaveAndNext();
      SavedNone(all);
      while current != del
        invariant Valid() && |buff| >= 1 && all == SavedAll(buff[1..], Body(Input(), del, linenumber))
        decreases |Input()|
      {
        if current == EOZ { return LexFailure(UnfinishedAtEnd); }
        if IsNewline(current) { return LexFailure(UnfinishedLine); }
        ghost var s, b, line := Input(), buff, linenumber;
        if current == BACKSLASH {
          var err := ReadEscaped(del);
          GoesOn(s, del, line, b, err, Input(), linenumber, buff);
          if err.Some? { return LexFailure(err.val); }
        } else {
          SaveAndNext();
          SaveOne(b[1..], s[0], Body(s[1..], del, line));
          assert buff[1..] == b[1..] + [s[0]];
        }
      }
      ghost var s := Input();
      SaveAndNext();
      assert s[1..] == Input();
      t := StringToken(buff[1..|buff| - 1]);
    }
  }

  lemma SavedNone(r: Scan)
    ensures SavedAll([], r) == r
  {
    if r.Text? { assert [] + r.val == r.val; }
  }

  /** The literal comes to the same, with what the escape sequence has added to the buffer. */
  ghost predicate Goes(s: Str, del: Byte, line: nat, b: Str, err: Option<LexError>, s': Str, line': nat, b': Str) {
    if err.Some? then Body(s, del, line) == Failed(err.val)
    else if s' == [] && b' == b then Body(s, del, line) == Failed(UnfinishedAtEnd)
    else |b'| == |b| + 1 && b <= b' && Body(s, del, line) == Saved(b'[|b|], Body(s', del, line'))
  }

  lemma GoesOn(s: Str, del: Byte, line: nat, b: Str, err: Option<LexError>, s': Str, line': nat, b': Str)
    requires |b| >= 1 && Goes(s, del, line, b, err, s', line', b')
    ensures var all := SavedAll(b[1..], Body(s, del, line));
      if err.Some? then all == Failed(err.val) else |b'| >= 1 && all == SavedAll(b'[1..], Body(s', del, line'))
  {
    if err.None? && !(s' == [] && b' == b) {
      SaveOne(b[1..], b'[|b|], Body(s', del, line'));
      assert b'[1..] == b[1..] + [b'[|b|]];
    }
  }

  ghost predicate Lexed(r: Scan, t: Token, rest: Str, line: nat) {
    match r
    case Text(v, q, n) => t == StringToken(v) && rest == q && line == n
    case Failed(e) => t == LexFailure(e)
  }

  /** The text that PrintString writes for a string, however it is split into chunks, is read again as
      this string, and what follows it is left. */
  method PrintAndRead(s: Str, t: Str, split: Str -> seq<Str>) returns (token: Token, l: LexState)
    requires forall x :: Flat(split(x)) == x && [] !in split(x)
    ensures token == StringToken(s) && l.Valid() && l.Input() == t && l.linenumber == 1
  {
    hide Flat, Body, Escaped;
    var text := PrintString(s);
    var chunks := split(text + t);
    NoEarlyEnd(chunks);
    var z := new Zio(chunks);
    assert z.Rest() == text + t;
    l := new LexState(z);
    ghost var body := Escaped(s) + [QUOTE] + t;
    assert text + t == [QUOTE] + body;
    assert l.Input()[1..] == body;
    ReadPrinted(s, t, 1);
    token := l.ReadString(QUOTE);
  }
}
