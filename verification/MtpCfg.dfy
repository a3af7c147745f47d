// The reader of configuration lines: words separated by spaces, quoted when they hold spaces, and the
// comma separated options of a storage.
module MtpCfg {
  import opened Wrappers

  const MAX_CFG_STRING_SIZE: nat := 512
  /** Room for the text of a parameter, before its terminator. */
  const ROOM: nat := MAX_CFG_STRING_SIZE - 1

  /** A character of a string; its terminator stands at and beyond its end. */
  function At(line: string, i: nat): char {
    if i < |line| then line[i] else '\0'
  }

  predicate IsEndLine(c: char) {
    c == '\0' || c == '#' || c == '\r' || c == '\n'
  }

  predicate IsSpace(c: char) {
    c == ' ' || c == '\t'
  }

  // --- Words ---

  function WordStart(line: string, offset: nat): (r: nat)
    ensures offset <= r && At(line, r) != ' '
    decreases |line| - offset
  {
    if At(line, offset) == ' ' then WordStart(line, offset + 1) else offset
  }

  method GetNextWord(line: string, offset: nat) returns (r: nat)
    ensures r == WordStart(line, offset)
  {
    r := offset;
    while !IsEndLine(At(line, r)) && At(line, r) == ' '
      invariant offset <= r && WordStart(line, r) == WordStart(line, offset)
      decreases |line| - r
    {
      r := r + 1;
    }
  }

  datatype Word = Word(text: string, next: nat)

  predicate Stops(line: string, offs: nat, inside: bool, room: nat) {
    IsEndLine(At(line, offs)) || (!inside && IsSpace(At(line, offs))) || room == 0
  }

  /** The word at an offset, inside quotes or not, cut to the room there is: its text without the quotes, and what follows it. */
  function Scan(line: string, offs: nat, inside: bool, room: nat): (w: Word)
    ensures offs <= w.next && |w.text| <= room
    decreases |line| - offs
  {
    if Stops(line, offs, inside, room) then Word("", offs)
    else if At(line, offs) == '"' then Scan(line, offs + 1, !inside, room)
    else
      var w := Scan(line, offs + 1, inside, room - 1);
      Word([At(line, offs)] + w.text, w.next)
  }

  /** A terminated string in a buffer. */
  ghost predicate Holds(dest: seq<char>, text: string) {
    |text| < |dest| && dest[..|text|] == text && dest[|text|] == '\0'
  }

  /** One step of the scan after some text has been copied. */
  lemma ScanStep(done: string, line: string, offs: nat, inside: bool, room: nat)
    ensures var w := Scan(line, offs, inside, room);
            if Stops(line, offs, inside, room) then done + w.text == done && w.next == offs
            else if At(line, offs) == '"' then w == Scan(line, offs + 1, !inside, room)
            else
              var v := Scan(line, offs + 1, inside, room - 1);
              done + w.text == (done + [At(line, offs)]) + v.text && w.next == v.next
  {
  }

  lemma InsideLine(line: string, offs: nat)
    requires !IsEndLine(At(line, offs))
    ensures offs < |line|
  {
  }

  method CopyParam(dest: array?<char>, line: string, offs: nat) returns (next: nat)
    requires dest != null ==> dest.Length >= MAX_CFG_STRING_SIZE
    modifies dest
    ensures next == Scan(line, offs, false, ROOM).next
    ensures dest != null ==> Holds(dest[..], Scan(line, offs, false, ROOM).text)
  {
    var i := 0;
    var insidequote := false;
    next := offs;
    ghost var all := Scan(line, offs, false, ROOM);
    ghost var done := "";
    assert done + all.text == all.text;
    hide Scan, IsEndLine, IsSpace;
    while !IsEndLine(At(line, next)) && (insidequote || !IsSpace(At(line, next))) && i < MAX_CFG_STRING_SIZE - 1
      invariant 0 <= i <= ROOM && |done| == i
      invariant dest != null ==> dest[..i] == done
      invariant all.text == done + Scan(line, next, insidequote, ROOM - i).text
      invariant all.next == Scan(line, next, insidequote, ROOM - i).next
      decreases |line| - next
    {
      InsideLine(line, next);
      ScanStep(done, line, next, insidequote, ROOM - i);
      if At(line, next) != '"' {
        if dest != null {
          dest[i] := At(line, next);
        }
        assert dest != null ==> dest[..i + 1] == done + [At(line, next)];
        done := done + [At(line, next)];
        i := i + 1;
      } else {
        insidequote := !insidequote;
      }
      next := next + 1;
    }
    ScanStep(done, line, next, insidequote, ROOM - i);
    assert all.text == done && all.next == next;
    hide At, Stops;
    if dest != null {
      dest[i] := '\0';
      assert dest[..][..i] == dest[..i] == done;
    }
  }

  // --- Parameters ---

  /** The offset of a later word, or -1 once the end of the string or a comment has been reached. */
  function Skip(line: string, offs: nat, count: int): int
    decreases count
  {
    if count <= 0 then offs
    else
      var next := WordStart(line, Scan(line, offs, false, ROOM).next);
      if At(line, next) == '\0' || At(line, next) == '#' then -1 else Skip(line, next, count - 1)
  }

  function ParamOffset(line: string, param: int): int {
    Skip(line, WordStart(line, 0), param)
  }

  method GetParamOffset(line: string, param: int) returns (offs: int)
    ensures offs == ParamOffset(line, param)
  {
    offs := GetNextWord(line, 0);
    var paramCnt := 0;
    while paramCnt < param
      invariant 0 <= paramCnt && (param >= 0 ==> paramCnt <= param) && offs >= 0
      invariant Skip(line, offs, param - paramCnt) == ParamOffset(line, param)
    {
      offs := CopyParam(null, line, offs);
      offs := GetNextWord(line, offs);
      if At(line, offs) == '\0' || At(line, offs) == '#' {
        return -1;
      }
      paramCnt := paramCnt + 1;
    }
  }

  function Param(line: string, param: int): Option<string> {
    var offs := ParamOffset(line, param);
    if offs >= 0 then Some(Scan(line, offs, false, ROOM).text) else None
  }

  method GetParam(line: string, paramOffset: int, param: array<char>) returns (r: int)
    requires param.Length >= MAX_CFG_STRING_SIZE
    modifies param
    ensures Param(line, paramOffset).None? ==> r == -1 && param[..] == old(param[..])
    ensures Param(line, paramOffset).Some? ==> r == 1 && Holds(param[..], Param(line, paramOffset).value)
  {
    var offs := GetParamOffset(line, paramOffset);
    if offs >= 0 {
      var next := CopyParam(param, line, offs);
      return 1;
    }
    return -1;
  }

  // --- Printing and reading back ---

  predicate Printable(token: string) {
    && |token| < 511
    && forall c :: c in token ==> c != '"' && !IsEndLine(c)
  }

  function Quoted(token: string): string {
    "\"" + token + "\""
  }

  /** Quoted words separated by single spaces. */
  function Printed(tokens: seq<string>): string {
    if tokens == [] then ""
    else Quoted(tokens[0]) + if |tokens| == 1 then "" else " " + Printed(tokens[1..])
  }

  /** A suffix of the line that splits gives the next suffix. */
  lemma Advance(line: string, offs: nat, a: string, b: string)
    requires offs <= |line| && line[offs..] == a + b
    ensures offs + |a| <= |line| && line[offs + |a|..] == b
    ensures At(line, offs + |a|) == At(b, 0)
    ensures a != "" ==> At(line, offs) == a[0]
  {
    assert line[offs..][|a|..] == b;
    assert line[offs + |a|..] == line[offs..][|a|..];
    assert b != "" ==> line[offs + |a|] == line[offs + |a|..][0];
    assert a != "" ==> line[offs] == line[offs..][0];
  }

  lemma {:induction false} ScanInside(line: string, offs: nat, token: string, after: string, room: nat)
    requires offs <= |line| && line[offs..] == token + ("\"" + after)
    requires |token| < room && forall c :: c in token ==> c != '"' && !IsEndLine(c)
    requires IsEndLine(At(after, 0)) || IsSpace(At(after, 0))
    ensures Scan(line, offs, true, room) == Word(token, offs + |token| + 1)
    decreases |token|
  {
    if token == "" {
      Advance(line, offs, "\"", after);
      assert Scan(line, offs + 1, false, room) == Word("", offs + 1);
    } else {
      assert token == [token[0]] + token[1..];
      Advance(line, offs, [token[0]], token[1..] + ("\"" + after));
      assert token[0] in token && forall c :: c in token[1..] ==> c in token;
      ScanInside(line, offs + 1, token[1..], after, room - 1);
    }
  }

  /** An unquoted word ends at a space, a tab, a comment or the end of the line. */
  lemma {:induction false} PlainWord(line: string, offs: nat, token: string, after: string, room: nat)
    requires offs <= |line| && line[offs..] == token + after && |token| <= room
    requires forall c :: c in token ==> c != '"' && c != ' ' && c != '\t' && c != '#' && c != '\r' && c != '\n' && c != '\0'
    requires after == "" || after[0] == ' ' || after[0] == '\t' || after[0] == '#' || after[0] == '\r' || after[0] == '\n'
    ensures Scan(line, offs, false, room) == Word(token, offs + |token|)
    decreases |token|
  {
    if token == "" {
      Advance(line, offs, "", after);
    } else {
      assert token == [token[0]] + token[1..];
      Advance(line, offs, [token[0]], token[1..] + after);
      assert token[0] in token && forall c :: c in token[1..] ==> c in token;
      PlainWord(line, offs + 1, token[1..], after, room - 1);
    }
  }

  /** A quoted word, and what follows it. */
  lemma ScanQuoted(line: string, offs: nat, token: string, after: string)
    requires Printable(token)
    requires offs <= |line| && line[offs..] == Quoted(token) + after
    requires IsEndLine(At(after, 0)) || IsSpace(At(after, 0))
    ensures var n := offs + |token| + 2;
            && Scan(line, offs, false, ROOM) == Word(token, n) && n <= |line|
            && line[n..] == after && At(line, n) == At(after, 0)
  {
    Advance(line, offs, Quoted(token), after);
    assert Quoted(token) + after == "\"" + (token + ("\"" + after));
    Advance(line, offs, "\"", token + ("\"" + after));
    ScanInside(line, offs + 1, token, after, ROOM);
  }

  /** What stands behind the first word of a printed list. */
  function Behind(tokens: seq<string>, tail: string): string
    requires tokens != []
  {
    if |tokens| == 1 then tail else " " + (Printed(tokens[1..]) + tail)
  }

  lemma PrintedSplits(tokens: seq<string>, tail: string)
    requires tokens != []
    ensures Printed(tokens) + tail == Quoted(tokens[0]) + Behind(tokens, tail)
    ensures At(Printed(tokens) + tail, 0) == '"'
  {
    var q := Quoted(tokens[0]);
    hide Quoted;
    if |tokens| == 1 {
      assert Printed(tokens) == q + "";
      Regroup(q, "", tail);
      assert "" + tail == tail;
    } else {
      var p := Printed(tokens[1..]);
      assert Printed(tokens) == q + (" " + p);
      hide Printed;
      Regroup(q, " " + p, tail);
      Regroup(" ", p, tail);
    }
    QuoteFirst(tokens[0], Behind(tokens, tail));
  }

  lemma Regroup(a: string, b: string, c: string)
    ensures (a + b) + c == a + (b + c)
  {
  }

  lemma QuoteFirst(token: string, after: string)
    ensures At(Quoted(token) + after, 0) == '"'
  {
  }

  /** What a parameter past the last one reads as: nothing at all before the end of the string or a comment, but an empty word
      before a line break. */
  function PastEnd(tail: string): Option<string> {
    if tail != "" && (tail[0] == '\r' || tail[0] == '\n') then Some("") else None
  }

  function TextAt(line: string, offs: int): Option<string> {
    if offs >= 0 then Some(Scan(line, offs, false, ROOM).text) else None
  }

  lemma {:induction false} SkipBreak(line: string, offs: nat, count: nat)
    requires At(line, offs) == '\r' || At(line, offs) == '\n'
    ensures Skip(line, offs, count) == offs
  {
    assert Scan(line, offs, false, ROOM).next == offs;
    if count > 0 {
      SkipBreak(line, offs, count - 1);
    }
  }

  lemma SkipOne(line: string, offs: nat, count: nat)
    requires count > 0
    ensures var next := WordStart(line, Scan(line, offs, false, ROOM).next);
            Skip(line, offs, count) == if At(line, next) == '\0' || At(line, next) == '#' then -1 else Skip(line, next, count - 1)
  {
  }

  lemma WordHere(line: string, offs: nat)
    requires At(line, offs) != ' '
    ensures WordStart(line, offs) == offs
  {
  }

  lemma WordBehindSpace(line: string, offs: nat)
    requires At(line, offs) == ' ' && At(line, offs + 1) != ' '
    ensures WordStart(line, offs) == offs + 1
  {
  }

  lemma SkipTail(line: string, n: nat, tail: string, k: nat)
    requires At(line, n) == At(tail, 0) && IsEndLine(At(tail, 0))
    ensures TextAt(line, if At(line, n) == '\0' || At(line, n) == '#' then -1 else Skip(line, n, k)) == PastEnd(tail)
  {
    hide Skip, Scan;
    EmptyWord(line, n);
    if At(line, n) == '\r' || At(line, n) == '\n' {
      SkipBreak(line, n, k);
    }
  }

  ghost predicate PrintedAt(line: string, offs: nat, tokens: seq<string>, tail: string) {
    offs <= |line| && line[offs..] == Printed(tokens) + tail
  }

  /** The first word of a printed list. */
  lemma FirstWord(line: string, offs: nat, tokens: seq<string>, tail: string)
    requires tokens != [] && Printable(tokens[0]) && PrintedAt(line, offs, tokens, tail)
    requires tail == "" || IsEndLine(tail[0])
    ensures var n := offs + |tokens[0]| + 2;
            && Scan(line, offs, false, ROOM) == Word(tokens[0], n) && n <= |line|
            && line[n..] == Behind(tokens, tail) && At(line, n) == At(Behind(tokens, tail), 0)
  {
    hide Scan, Printed, Quoted, Printable;
    PrintedSplits(tokens, tail);
    TailStart(tail);
    BehindStart(tokens, tail);
    ScanQuoted(line, offs, tokens[0], Behind(tokens, tail));
  }

  /** The way to the next word of a printed list. */
  lemma NextWord(line: string, n: nat, tokens: seq<string>, tail: string)
    requires |tokens| > 1 && n <= |line| && line[n..] == Behind(tokens, tail)
    ensures WordStart(line, n) == n + 1 && At(line, n + 1) == '"' && PrintedAt(line, n + 1, tokens[1..], tail)
  {
    hide Printed, WordStart;
    Advance(line, n, " ", Printed(tokens[1..]) + tail);
    PrintedSplits(tokens[1..], tail);
    WordBehindSpace(line, n);
  }

  lemma {:induction false} SkipPrinted(line: string, offs: nat, tokens: seq<string>, tail: string, k: nat)
    requires tokens != [] && forall t :: t in tokens ==> Printable(t)
    requires PrintedAt(line, offs, tokens, tail)
    requires tail == "" || IsEndLine(tail[0])
    ensures TextAt(line, Skip(line, offs, k)) == if k < |tokens| then Some(tokens[k]) else PastEnd(tail)
    decreases |tokens|
  {
    hide Scan, WordStart, Printable, At, PrintedAt, PastEnd;
    FirstWord(line, offs, tokens, tail);
    if k > 0 {
      SkipOne(line, offs, k);
      hide Skip;
      var n := offs + |tokens[0]| + 2;
      if |tokens| == 1 {
        TailStart(tail);
        BehindStart(tokens, tail);
        WordHere(line, n);
        SkipTail(line, n, tail, k - 1);
      } else {
        NextWord(line, n, tokens, tail);
        hide Behind;
        assert forall t :: t in tokens[1..] ==> t in tokens;
        SkipPrinted(line, n + 1, tokens[1..], tail, k - 1);
      }
    }
  }

  lemma TailStart(tail: string)
    requires tail == "" || IsEndLine(tail[0])
    ensures IsEndLine(At(tail, 0)) && At(tail, 0) != ' '
  {
  }

  lemma BehindStart(tokens: seq<string>, tail: string)
    requires tokens != []
    ensures At(Behind(tokens, tail), 0) == if |tokens| == 1 then At(tail, 0) else ' '
  {
  }

  lemma EmptyWord(line: string, offs: nat)
    requires IsEndLine(At(line, offs))
    ensures Scan(line, offs, false, ROOM) == Word("", offs)
  {
  }

  /** Reading back a printed list: every parameter in range is its token. */
  lemma ParamReadsPrinted(tokens: seq<string>, tail: string, k: nat)
    requires forall t :: t in tokens ==> Printable(t)
    requires tail == "" || IsEndLine(tail[0])
    ensures var line := Printed(tokens) + tail;
            Param(line, k) == if k < |tokens| then Some(tokens[k])
                              else if k == 0 then Some("")
                              else PastEnd(tail)
  {
    var line := Printed(tokens) + tail;
    if tokens == [] {
      assert line == tail;
      assert WordStart(line, 0) == 0 && Scan(line, 0, false, ROOM) == Word("", 0);
      if k > 0 && tail != "" && (tail[0] == '\r' || tail[0] == '\n') {
        SkipBreak(line, 0, k);
      }
    } else {
      PrintedSplits(tokens, tail);
      WordHere(line, 0);
      assert line[0..] == line;
      hide Printed, Quoted, WordStart, Scan, Skip;
      SkipPrinted(line, 0, tokens, tail, k);
    }
  }

  // --- Flags ---

  /** An occurrence of the flag that counts: at the start or after a comma, and before the end, a comma or an equals sign. */
  predicate HitAt(str: string, flag: string, i: nat) {
    && i < |str| && i + |flag| <= |str| && str[i..i + |flag|] == flag
    && (i == 0 || str[i - 1] == ',')
    && (i + |flag| == |str| || str[i + |flag|] == ',' || str[i + |flag|] == '=')
  }

  function FirstHit(str: string, flag: string, i: nat): (r: nat)
    requires i <= |str|
    ensures i <= r <= |str|
    ensures r < |str| ==> HitAt(str, flag, r)
    ensures forall j :: i <= j < r ==> !HitAt(str, flag, j)
    decreases |str| - i
  {
    if i == |str| || HitAt(str, flag, i) then i else FirstHit(str, flag, i + 1)
  }

  predicate Found(str: string, flag: string) {
    FirstHit(str, flag, 0) < |str|
  }

  function Value(str: string, i: nat, room: nat): (v: string)
    ensures |v| <= room
    decreases |str| - i
  {
    if i >= |str| || str[i] == ',' || str[i] == ' ' || room == 0 then ""
    else [str[i]] + Value(str, i + 1, room - 1)
  }

  /** The value is the text up to the next comma or space, as far as there is room. */
  lemma {:induction false} ValueIsText(str: string, i: nat, room: nat)
    requires i <= |str|
    ensures var v := Value(str, i, room);
      && i + |v| <= |str| && v == str[i..i + |v|] && ',' !in v && ' ' !in v
      && (|v| == room || i + |v| == |str| || str[i + |v|] == ',' || str[i + |v|] == ' ')
    decreases |str| - i
  {
    if !(i >= |str| || str[i] == ',' || str[i] == ' ' || room == 0) {
      ValueIsText(str, i + 1, room - 1);
      var v := Value(str, i + 1, room - 1);
      assert str[i..i + 1 + |v|] == [str[i]] + str[i + 1..i + 1 + |v|];
    }
  }

  method CopyValue(str: string, from: nat, param: array<char>)
    requires '\0' !in str && param.Length >= MAX_CFG_STRING_SIZE
    modifies param
    ensures Holds(param[..], Value(str, from, ROOM))
  {
    var i, j := from, 0;
    ghost var all, done := Value(str, from, ROOM), "";
    while At(str, i) != '\0' && At(str, i) != ',' && At(str, i) != ' ' && j < MAX_CFG_STRING_SIZE - 1
      invariant 0 <= j <= ROOM && |done| == j && param[..j] == done && from <= i
      invariant all == done + Value(str, i, ROOM - j)
      decreases |str| - i
    {
      param[j] := At(str, i);
      assert done + ([str[i]] + Value(str, i + 1, ROOM - j - 1)) == (done + [str[i]]) + Value(str, i + 1, ROOM - j - 1);
      done := done + [str[i]];
      i := i + 1;
      j := j + 1;
    }
    assert At(str, i) == '\0' ==> i >= |str|;
    assert all == done + [] == done;
    param[j] := '\0';
  }

  /** Strings here are the characters before the terminator. */
  method TestFlag(str: string, flag: string, param: array?<char>) returns (r: int)
    requires '\0' !in str && '\0' !in flag
    requires param != null ==> param.Length >= MAX_CFG_STRING_SIZE
    modifies param
    ensures r == if Found(str, flag) then 1 else 0
    ensures param != null ==>
              var end := FirstHit(str, flag, 0) + |flag|;
              if r == 1 && At(str, end) == '=' then Holds(param[..], Value(str, end + 1, 511)) else param[..] == old(param[..])
  {
    var flaglen := |flag|;
    var i := 0;
    var previousChar := '\0';
    while At(str, i) != '\0'
      invariant 0 <= i <= |str|
      invariant previousChar == if i == 0 then '\0' else str[i - 1]
      invariant FirstHit(str, flag, i) == FirstHit(str, flag, 0)
      invariant param != null ==> param[..] == old(param[..])
      decreases |str| - i
    {
      if i + flaglen <= |str| && str[i..i + flaglen] == flag {
        if (previousChar == '\0' || previousChar == ',')
           && (At(str, i + flaglen) == '\0' || At(str, i + flaglen) == ',' || At(str, i + flaglen) == '=')
        {
          assert HitAt(str, flag, i);
          if param != null && At(str, i + flaglen) == '=' {
            CopyValue(str, i + flaglen + 1, param);
          }
          return 1;
        }
      }
      assert !HitAt(str, flag, i);
      previousChar := str[i];
      i := i + 1;
    }
    return 0;
  }

  // --- What a flag means ---

  function Comma(str: string, i: nat): (r: nat)
    requires i <= |str|
    ensures i <= r <= |str| && (r < |str| ==> str[r] == ',') && ',' !in str[i..r]
    decreases |str| - i
  {
    if i == |str| || str[i] == ',' then i
    else
      var r := Comma(str, i + 1);
      assert str[i..r] == [str[i]] + str[i + 1..r];
      r
  }

  /** The elements of a comma separated list. */
  function Elements(str: string): (es: seq<string>)
    decreases |str|
  {
    var e := Comma(str, 0);
    if e == |str| then [str] else [str[..e]] + Elements(str[e + 1..])
  }

  predicate Names(element: string, flag: string) {
    element == flag || flag + "=" <= element
  }

  ghost predicate Listed(str: string, flag: string) {
    exists e :: e in Elements(str) && Names(e, flag)
  }

  lemma BeforeComma(str: string)
    ensures forall k :: 0 <= k < Comma(str, 0) ==> str[k] != ','
  {
    assert forall k :: 0 <= k < Comma(str, 0) ==> str[0..Comma(str, 0)][k] == str[k];
  }

  lemma FirstElement(str: string, flag: string)
    requires flag != "" && ',' !in flag
    ensures HitAt(str, flag, 0) <==> Names(str[..Comma(str, 0)], flag)
  {
    var e, n := Comma(str, 0), |flag|;
    var first := str[..e];
    BeforeComma(str);
    if HitAt(str, flag, 0) {
      assert forall k :: 0 <= k < n ==> str[k] == str[0..n][k] == flag[k] && flag[k] in flag;
      assert n <= e;
      assert first[..n] == str[0..n] == flag;
      if n < e {
        assert first[..n + 1] == flag + "=";
      } else {
        assert first == flag;
      }
    }
    if first == flag {
      assert str[0..n] == flag;
    } else if flag + "=" <= first {
      assert (flag + "=")[..n] == flag && first[..n] == flag && str[0..n] == first[..n];
      assert first[n] == (flag + "=")[n] == '=';
    }
  }

  lemma LaterHit(str: string, flag: string, e: nat, i: nat)
    requires e < |str| && str[e] == ','
    ensures flag != "" ==> (HitAt(str, flag, e + 1 + i) <==> HitAt(str[e + 1..], flag, i))
  {
    var rest := str[e + 1..];
    if i + |flag| <= |rest| {
      assert rest[i..i + |flag|] == str[e + 1 + i..e + 1 + i + |flag|];
    }
  }

  ghost predicate Hit(str: string, flag: string) {
    exists i: nat :: HitAt(str, flag, i)
  }

  lemma HitBehindComma(str: string, flag: string, i: nat)
    requires HitAt(str, flag, i) && i > 0
    ensures Comma(str, 0) < i < |str|
  {
    BeforeComma(str);
  }

  /** A hit is at the start or behind the first comma. */
  lemma HitSplits(str: string, flag: string)
    requires flag != ""
    ensures Hit(str, flag) <==> HitAt(str, flag, 0) || (Comma(str, 0) < |str| && Hit(str[Comma(str, 0) + 1..], flag))
  {
    hide HitAt, Comma;
    var e := Comma(str, 0);
    if Hit(str, flag) && !HitAt(str, flag, 0) {
      var i: nat :| HitAt(str, flag, i);
      HitBehindComma(str, flag, i);
      LaterHit(str, flag, e, i - e - 1);
    }
    if e < |str| && Hit(str[e + 1..], flag) {
      var i: nat :| HitAt(str[e + 1..], flag, i);
      LaterHit(str, flag, e, i);
    }
  }

  lemma ListedSplits(str: string, flag: string)
    ensures var e := Comma(str, 0);
            Listed(str, flag) <==> Names(str[..e], flag) || (e < |str| && Listed(str[e + 1..], flag))
  {
    var e := Comma(str, 0);
    assert e == |str| ==> str[..e] == str;
    assert str[..e] in Elements(str);
    if e < |str| {
      assert forall x :: x in Elements(str) <==> x == str[..e] || x in Elements(str[e + 1..]);
    }
  }

  lemma {:induction false} HitIsListed(str: string, flag: string)
    requires flag != "" && ',' !in flag
    ensures Hit(str, flag) <==> Listed(str, flag)
    decreases |str|
  {
    hide Names, Elements, HitAt, Hit, Listed;
    FirstElement(str, flag);
    HitSplits(str, flag);
    ListedSplits(str, flag);
    if Comma(str, 0) < |str| {
      HitIsListed(str[Comma(str, 0) + 1..], flag);
    }
  }

  lemma FoundIsListed(str: string, flag: string)
    requires flag != "" && ',' !in flag
    ensures Found(str, flag) <==> Listed(str, flag)
  {
    HitIsListed(str, flag);
  }

  /** Testing a flag means looking for it among the elements of every list, if and only if the flag is a word without commas. */
  lemma FlagMeansElement(flag: string)
    ensures (forall str: string :: Found(str, flag) <==> Listed(str, flag)) <==> flag != "" && ',' !in flag
  {
    if flag == "" {
      assert Elements("") == [""] && "" in Elements("");
      assert Names("", flag);
      assert !Found("", flag) && Listed("", flag);
    } else if ',' in flag {
      assert flag[0..|flag|] == flag;
      assert HitAt(flag, flag, 0) && Found(flag, flag);
      forall x | x in Elements(flag)
        ensures !Names(x, flag)
      {
        NoComma(flag, x);
        NamesKeepComma(x, flag);
      }
      assert !Listed(flag, flag);
    } else {
      forall str: string
        ensures Found(str, flag) <==> Listed(str, flag)
      {
        FoundIsListed(str, flag);
      }
    }
  }

  lemma NamesKeepComma(x: string, flag: string)
    requires ',' in flag
    ensures Names(x, flag) ==> ',' in x
  {
    var k :| 0 <= k < |flag| && flag[k] == ',';
    if Names(x, flag) && x != flag {
      assert (flag + "=")[k] == ',';
      assert x[k] == ',';
    }
  }

  lemma {:induction false} NoComma(str: string, x: string)
    requires x in Elements(str)
    ensures ',' !in x
    decreases |str|
  {
    var e := Comma(str, 0);
    assert str[0..e] == str[..e];
    if e == |str| {
      assert str[..e] == str;
    } else if x != str[..e] {
      NoComma(str[e + 1..], x);
    }
  }
}
