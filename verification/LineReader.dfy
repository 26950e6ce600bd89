/** A socket's incoming bytes as lines, and, once a listener has asked for it, as raw data. */
module LineReader {
  /** What the listener does when it is handed a line: nothing, ask for all that follows as data, or hang up. */
  datatype Reaction = Stay | ToData | HangUp

  datatype Mode = LineMode | DataMode

  /** What has become of a stream: the lines handed out, the unfinished one, the data handed out. */
  datatype Outcome = Outcome(lines: seq<string>, tail: string, mode: Mode, data: string, hungUp: bool)

  /** The listener's reaction to the last of all lines so far. */
  type Listener = seq<string> -> Reaction

  // ----- the reference: the whole stream at once -----

  /** The first place of c in s, or |s|. */
  function Find(s: string, c: char): (k: nat)
    ensures k <= |s| && c !in s[..k] && (k < |s| ==> s[k] == c)
  {
    if s == "" || s[0] == c then 0 else 1 + Find(s[1..], c)
  }

  /** The stream rest, read after some lines. */
  function Scan(sep: char, react: Listener, lines: seq<string>, rest: string): Outcome
    decreases |rest|
  {
    var k := Find(rest, sep);
    if k == |rest| then Outcome(lines, rest, LineMode, "", false)
    else if k == 0 then Scan(sep, react, lines, rest[1..])
    else
      var more := lines + [rest[..k]];
      match react(more)
      case Stay => Scan(sep, react, more, rest[k + 1..])
      case ToData => Outcome(more, "", DataMode, rest[k + 1..], false)
      case HangUp => Outcome(more, "", LineMode, "", true)
  }

  /** The pieces with the separator behind each. */
  function Ended(pieces: seq<string>, sep: char): string {
    if pieces == [] then "" else pieces[0] + [sep] + Ended(pieces[1..], sep)
  }

  function NonEmpty(pieces: seq<string>): seq<string> {
    if pieces == [] then [] else (if pieces[0] == "" then [] else [pieces[0]]) + NonEmpty(pieces[1..])
  }

  /** Every line but the last was met with nothing, and the last as the outcome says. */
  predicate Reacted(react: Listener, lines: seq<string>, from: nat, o: Outcome) {
    && (forall i :: from < i < |lines| ==> react(lines[..i]) == Stay)
    && (|lines| > from ==> react(lines) == if o.hungUp then HangUp else if o.mode == DataMode then ToData else Stay)
    && (|lines| <= from ==> !o.hungUp && o.mode == LineMode)
  }

  /** The stream is some pieces, each with a separator behind it, and the rest. */
  predicate Cut(sep: char, stream: string, pieces: seq<string>, left: string) {
    stream == Ended(pieces, sep) + left && forall p :: p in pieces ==> sep !in p
  }

  predicate Left(sep: char, o: Outcome, left: string) {
    if o.mode == DataMode then o.data == left && o.tail == "" && !o.hungUp
    else o.data == "" && (o.hungUp || (o.tail == left && sep !in left))
  }

  lemma CutOne(sep: char, piece: string, after: string, behind: seq<string>, left: string)
    requires Cut(sep, after, behind, left) && sep !in piece
    ensures Cut(sep, piece + [sep] + after, [piece] + behind, left)
  {
    assert ([piece] + behind)[1..] == behind;
    assert piece + [sep] + (Ended(behind, sep) + left) == (piece + [sep] + Ended(behind, sep)) + left;
  }

  lemma NonEmptyOne(piece: string, behind: seq<string>, lines: seq<string>)
    ensures lines + NonEmpty([piece] + behind) == (if piece == "" then lines else lines + [piece]) + NonEmpty(behind)
  {
    assert ([piece] + behind)[1..] == behind;
  }

  lemma ReactedOne(react: Listener, lines: seq<string>, line: string, o: Outcome)
    requires react(lines + [line]) == Stay && Reacted(react, o.lines, |lines| + 1, o)
    requires |o.lines| > |lines| && o.lines[..|lines| + 1] == lines + [line]
    ensures Reacted(react, o.lines, |lines|, o)
  {
    assert o.lines[..|o.lines|] == o.lines;
  }

  /** The lines are the non-empty pieces of the stream between separators, up to the first the listener reacts to;
      all that follows the separator is the unfinished line or the data. */
  lemma {:induction false} ScanAccounts(sep: char, react: Listener, lines: seq<string>, rest: string)
    returns (pieces: seq<string>, left: string)
    ensures var o := Scan(sep, react, lines, rest);
            && Cut(sep, rest, pieces, left) && o.lines == lines + NonEmpty(pieces)
            && Reacted(react, o.lines, |lines|, o) && Left(sep, o, left)
    decreases |rest|
  {
    var k := Find(rest, sep);
    if k == |rest| {
      pieces, left := [], rest;
    } else {
      var piece, after := rest[..k], rest[k + 1..];
      assert rest == piece + [sep] + after;
      var more := if k == 0 then lines else lines + [piece];
      var behind;
      if k > 0 && react(more) != Stay {
        behind, left := [], after;
      } else {
        behind, left := ScanAccounts(sep, react, more, after);
        if k > 0 {
          ReactedOne(react, lines, piece, Scan(sep, react, more, after));
        }
      }
      pieces := [piece] + behind;
      CutOne(sep, piece, after, behind, left);
      NonEmptyOne(piece, behind, lines);
    }
  }

  // ----- reading on -----

  lemma {:induction false} FindFirst(s: string, c: char, k: nat)
    requires k <= |s| && c !in s[..k] && (k < |s| ==> s[k] == c)
    ensures Find(s, c) == k
  {
    if s != "" && k > 0 {
      assert s[0] in s[..k];
      assert forall x :: x in s[1..][..k - 1] ==> x in s[..k];
      FindFirst(s[1..], c, k - 1);
    }
  }

  /** What a stream has come to, and then more of it. */
  function ReadOn(sep: char, react: Listener, o: Outcome, more: string): Outcome {
    if o.hungUp then o
    else if o.mode == DataMode then o.(data := o.data + more)
    else Scan(sep, react, o.lines, o.tail + more)
  }

  /** Where a stream is cut into reads makes no difference. */
  lemma {:induction false} ScanReadOn(sep: char, react: Listener, lines: seq<string>, a: string, b: string)
    ensures Scan(sep, react, lines, a + b) == ReadOn(sep, react, Scan(sep, react, lines, a), b)
    decreases |a|
  {
    var k := Find(a, sep);
    if k < |a| {
      FindFirst(a + b, sep, k) by {
        assert (a + b)[..k] == a[..k];
      }
      assert (a + b)[..k] == a[..k] && (a + b)[k + 1..] == a[k + 1..] + b;
      var more := if k == 0 then lines else lines + [a[..k]];
      ScanReadOn(sep, react, more, a[k + 1..], b);
    }
  }

  // ----- the socket -----

  datatype ReadResult = WouldBlock | Closed | Received(bytes: string)

  datatype State = Running | Failed

  class BufferedSocket {
    const maxCommandLength: nat
    const react: Listener
    var separator: char
    var mode: Mode
    var line: string
    var state: State
    var disconnecting: bool
    /** What the listener has been handed. */
    var lines: seq<string>
    var data: string
    /** All bytes read. */
    ghost var stream: string

    /** What has become of the bytes so far. */
    function Now(): Outcome
      reads this
    {
      Outcome(lines, line, mode, data, disconnecting)
    }

    ghost predicate Valid()
      reads this
    {
      (separator == '\0' ==> stream == "") && Agrees(Scan(separator, react, [], stream), Now())
    }

    constructor (separator: char, maxCommandLength: nat, react: Listener)
      ensures Valid() && stream == "" && state == Running && !disconnecting && mode == LineMode
      ensures this.separator == separator && this.maxCommandLength == maxCommandLength && this.react == react
    {
      this.separator, this.maxCommandLength, this.react := separator, maxCommandLength, react;
      mode, line, state, disconnecting := LineMode, "", Running, false;
      lines, data, stream := [], "", "";
    }

    /** Hands a line to the listener. */
    method FireLine(l: string)
      modifies this`mode, this`disconnecting, this`lines
      requires mode == LineMode && !disconnecting
      ensures lines == old(lines) + [l]
      ensures mode == (if react(lines) == ToData then DataMode else LineMode)
      ensures disconnecting == react(lines).HangUp?
    {
      lines := lines + [l];
      match react(lines)
      case Stay =>
      case ToData => mode := DataMode;
      case HangUp => disconnecting := true;
    }

    /** With the text l still to be handled, everything is on the way to the outcome o. */
    ghost predicate OnTheWay(o: Outcome, l: string)
      reads this
    {
      if disconnecting then mode == LineMode && o.hungUp && lines == o.lines
      else if mode == DataMode then o == Outcome(lines, "", DataMode, l, false)
      else o == Scan(separator, react, lines, l)
    }

    /** Hands out the line before the separator unless it is empty, and returns what is behind the separator. */
    method TakeLine(l: string, pos: nat, ghost o: Outcome) returns (rest: string)
      requires mode == LineMode && !disconnecting && pos == Find(l, separator) < |l| && OnTheWay(o, l)
      modifies this`mode, this`disconnecting, this`lines
      ensures rest == l[pos + 1..] && OnTheWay(o, rest)
    {
      if pos > 0 {
        FireLine(l[..pos]);
      }
      rest := l[pos + 1..];
    }

    /** Hands out lines until no separator is left, the mode changes or the listener hangs up. Returns what is left
        of the text, and of the buffer. */
    method TakeLines(inbuf: string, at: nat, ghost o: Outcome)
      returns (l: string, left: nat, stopped: bool, ghost first: bool)
      requires at < |inbuf| && mode == LineMode && !disconnecting && separator !in line
      requires OnTheWay(o, line + inbuf[at..])
      modifies this`mode, this`disconnecting, this`lines
      ensures left <= |inbuf| - at && Rest(first, line, inbuf, at, l, left) && (mode == DataMode ==> !first)
      ensures OnTheWay(o, l) && (!disconnecting && mode == LineMode ==> Find(l, separator) == |l|)
      ensures stopped ==> disconnecting
    {
      left, stopped, first := |inbuf| - at, false, true;
      l := line + inbuf[at..];
      var pos := Find(l, separator);
      while pos < |l|
        invariant pos == Find(l, separator) && mode == LineMode && OnTheWay(o, l)
        invariant left <= |inbuf| - at && Rest(first, line, inbuf, at, l, left)
        decreases |l|
      {
        if disconnecting {
          stopped := true;
          return;
        }
        EraseLine(separator, first, line, inbuf, at, l, left);
        l := TakeLine(l, pos, o);
        if |l| < left {
          left := |l|;
        }
        first := false;
        if mode != LineMode {
          return;
        }
        pos := Find(l, separator);
      }
    }

    /** The lines in the unread part of the buffer. Returns where the part not yet handled begins and how long it is,
        or that the listener hung up in the middle of it. */
    method ReadLines(inbuf: string, at: nat, ghost o: Outcome) returns (bufpos: nat, left: nat, stopped: bool)
      requires at < |inbuf| && mode == LineMode && !disconnecting && separator !in line
      modifies this`mode, this`disconnecting, this`lines, this`line
      requires o == Scan(separator, react, lines, line + inbuf[at..])
      ensures Agrees(o, Now().(data := if mode == DataMode then Pending(inbuf, bufpos, left) else ""))
      ensures bufpos <= |inbuf| && (left > 0 && !stopped ==> mode == DataMode && bufpos + left == |inbuf|)
      ensures (mode == DataMode ==> !disconnecting) && (stopped ==> disconnecting)
    {
      LineData(separator, react, lines, line + inbuf[at..]);
      var l, remaining;
      ghost var first;
      l, remaining, stopped, first := TakeLines(inbuf, at, o);
      bufpos, left := at, remaining;
      if stopped {
        return;
      }
      if mode != LineMode {
        bufpos := |inbuf| - left;
        line := "";
      } else {
        left := 0;
        line := l;
      }
    }

    /** One round of reading. An exception ends the connection. */
    method ThreadRead(result: ReadResult) returns (thrown: bool)
      requires Valid() && (result.Received? ==> result.bytes != "")
      modifies this
      ensures Valid()
      ensures stream == if old(state == Running && !disconnecting) && result.Received? then old(stream) + result.bytes
                        else old(stream)
      ensures separator == if old(separator) == '\0' && stream != "" then Detected(stream) else old(separator)
      ensures thrown ==> old(state == Running && !disconnecting) && state == Failed
      ensures old(state == Running && !disconnecting) && !disconnecting ==>
                (thrown <==> result.Closed? || (result.Received? && mode == LineMode && |line| > maxCommandLength))
      ensures !thrown ==> state == old(state)
    {
      if state != Running || disconnecting {
        return false;
      }
      if result.WouldBlock? {
        return false;
      }
      if result.Closed? {
        state := Failed;
        return true;
      }
      var inbuf := result.bytes;
      ghost var whole := stream + inbuf;
      ghost var begun := mode == DataMode;
      if begun {
        ScanReadOn(separator, react, [], stream, inbuf);
      }
      var bufpos: nat, left: nat := 0, |inbuf|;
      while left > 0
        invariant begun ==> Handled(whole, inbuf, bufpos, left)
        invariant !begun ==> unchanged(this) && mode == LineMode && left == |inbuf|
        invariant stream == old(stream) && state == Running
        invariant separator == if begun && old(separator) == '\0' then Detected(whole) else old(separator)
        decreases left, if mode == LineMode then 1 else 0
      {
        // After a hang-up nothing is left.
        match mode
        case LineMode =>
          Detect(inbuf);
          var stopped;
          bufpos, left, stopped := LineRound(inbuf);
          begun := true;
          if stopped {
            stream := whole;
            return false;
          }
        case DataMode =>
          data := data + inbuf[bufpos..];
          bufpos, left := bufpos + left, 0;
      }
      stream := whole;
      if mode == LineMode && |line| > maxCommandLength {
        state := Failed;
        return true;
      }
      return false;
    }

    /** Reads one after the other until the connection ends. However the stream is cut, what has been handed out is the
        outcome of the stream as a whole, and only a line that is too long ends the connection. */
    method ReadAll(cuts: seq<string>) returns (thrown: bool)
      requires Valid() && state == Running && forall r :: r in cuts ==> r != ""
      modifies this
      ensures Agrees(Scan(separator, react, [], stream), Now())
      ensures stream <= old(stream) + Joined(cuts)
      ensures !thrown && !disconnecting ==> stream == old(stream) + Joined(cuts)
      ensures thrown && !disconnecting ==> !ShortLines(separator, stream, maxCommandLength)
    {
      thrown := false;
      var i := 0;
      while i < |cuts| && !thrown && !disconnecting
        invariant i <= |cuts| && Valid() && stream == old(stream) + Joined(cuts[..i])
        invariant !thrown ==> state == Running
        invariant thrown && !disconnecting ==> !ShortLines(separator, stream, maxCommandLength)
      {
        JoinedMore(old(stream), cuts, i);
        thrown := ReadOne(cuts[i]);
        i := i + 1;
      }
      JoinedPrefix(cuts, i);
      assert i == |cuts| ==> cuts[..i] == cuts;
    }

    method ReadOne(bytes: string) returns (thrown: bool)
      requires Valid() && state == Running && !disconnecting && bytes != ""
      modifies this
      ensures Valid() && stream == old(stream) + bytes && (!thrown ==> state == Running)
      ensures thrown && !disconnecting ==> !ShortLines(separator, stream, maxCommandLength)
    {
      thrown := ThreadRead(Received(bytes));
      if thrown && !disconnecting {
        TailIsLine(separator, react, stream, maxCommandLength);
      }
    }

    /** The first byte of the stream may decide the separator. */
    method Detect(inbuf: string)
      requires Valid() && inbuf != "" && mode == LineMode && !disconnecting
      modifies this`separator
      ensures Valid() && separator != '\0'
      ensures separator == if old(separator) == '\0' then Detected(stream + inbuf) else old(separator)
    {
      if separator == '\0' {
        separator := if inbuf[0] == '$' then '|' else '\n';
      }
    }

    /** A whole buffer that begins in line mode. */
    method LineRound(inbuf: string) returns (bufpos: nat, left: nat, stopped: bool)
      requires Valid() && inbuf != "" && mode == LineMode && !disconnecting && separator != '\0'
      modifies this`mode, this`disconnecting, this`lines, this`line
      ensures if stopped then disconnecting && Agrees(Scan(separator, react, [], stream + inbuf), Now())
              else Handled(stream + inbuf, inbuf, bufpos, left)
    {
      ghost var o := Scan(separator, react, [], stream + inbuf);
      BeforeLine(separator, react, stream, inbuf, Now(), o);
      bufpos, left, stopped := ReadLines(inbuf, 0, o);
    }

    /** The buffer from bufpos on is still to be handed out as data. */
    ghost predicate Handled(whole: string, inbuf: string, bufpos: nat, left: nat)
      reads this
    {
      && separator != '\0' && bufpos <= |inbuf| && (left > 0 ==> mode == DataMode && bufpos + left == |inbuf|)
      && Agrees(Scan(separator, react, [], whole), Now().(data := data + Pending(inbuf, bufpos, left)))
    }
  }

  /** The socket has got as far as the outcome says. After a hang-up only what was handed out matters. */
  predicate Agrees(o: Outcome, now: Outcome) {
    && now.lines == o.lines && now.data == o.data && now.hungUp == o.hungUp
    && (!o.hungUp ==> now.mode == o.mode && now.tail == o.tail)
  }

  function Pending(inbuf: string, bufpos: nat, left: nat): string {
    if left > 0 && bufpos <= |inbuf| then inbuf[bufpos..] else ""
  }

  lemma BeforeLine(sep: char, react: Listener, stream: string, inbuf: string, now: Outcome, o: Outcome)
    requires Agrees(Scan(sep, react, [], stream), now) && now.mode == LineMode && !now.hungUp
    requires o == Scan(sep, react, [], stream + inbuf)
    ensures now.data == "" && sep !in now.tail && o == Scan(sep, react, now.lines, now.tail + inbuf[0..])
  {
    var pieces, left := ScanAccounts(sep, react, [], stream);
    ScanReadOn(sep, react, [], stream, inbuf);
    assert inbuf[0..] == inbuf;
  }

  lemma LineData(sep: char, react: Listener, lines: seq<string>, rest: string)
    ensures var o := Scan(sep, react, lines, rest); o.mode == LineMode || o.hungUp ==> o.data == ""
  {
    var pieces, left := ScanAccounts(sep, react, lines, rest);
  }

  /** The separator found out from the first byte of the stream. */
  function Detected(stream: string): char
    requires stream != ""
  {
    if stream[0] == '$' then '|' else '\n'
  }

  lemma {:induction false} FoundAt(line: string, c: char, rest: string)
    requires c !in line
    ensures Find(line + [c] + rest, c) == |line|
    decreases |line|
  {
    if line != "" {
      assert (line + [c] + rest)[1..] == line[1..] + [c] + rest;
      FoundAt(line[1..], c, rest);
    }
  }

  lemma FirstPiece(sep: char, react: Listener, line: string, rest: string)
    requires line != "" && sep !in line
    ensures var o := Scan(sep, react, [], line + [sep] + rest); o.lines != [] && o.lines[0] == line
  {
    var s := line + [sep] + rest;
    FoundAt(line, sep, rest);
    assert s[..|line|] == line && [] + [line] == [line];
    ScanGoesOn(sep, react, [line], s[|line| + 1..]);
  }

  lemma ScanGoesOn(sep: char, react: Listener, lines: seq<string>, rest: string)
    ensures lines <= Scan(sep, react, lines, rest).lines
  {
    var pieces, left := ScanAccounts(sep, react, lines, rest);
  }

  /** An NMDC peer begins with a dollar sign: its first command ends at the first bar. */
  lemma NmdcCommand(react: Listener, line: string, rest: string)
    requires line != "" && line[0] == '$' && '|' !in line
    ensures var stream := line + "|" + rest;
            var o := Scan(Detected(stream), react, [], stream); o.lines != [] && o.lines[0] == line
  {
    FirstPiece('|', react, line, rest);
  }

  /** Any other peer speaks ADC: its first command ends at the first line feed. */
  lemma AdcCommand(react: Listener, line: string, rest: string)
    requires line != "" && line[0] != '$' && '\n' !in line
    ensures var stream := line + "\n" + rest;
            var o := Scan(Detected(stream), react, [], stream); o.lines != [] && o.lines[0] == line
  {
    FirstPiece('\n', react, line, rest);
  }

  /** l is the unfinished line with the buffer from at on, or, once a separator was found, the last left bytes. */
  predicate Rest(first: bool, line: string, inbuf: string, at: nat, l: string, left: nat) {
    && at <= |inbuf| && left <= |inbuf|
    && if first then l == line + inbuf[at..] && left == |inbuf| - at else l == inbuf[|inbuf| - left..]
  }

  lemma EraseLine(sep: char, first: bool, line: string, inbuf: string, at: nat, l: string, left: nat)
    requires Rest(first, line, inbuf, at, l, left) && sep !in line && Find(l, sep) < |l|
    ensures var rest := l[Find(l, sep) + 1..]; |rest| < left && Rest(false, line, inbuf, at, rest, |rest|)
  {
    var pos := Find(l, sep);
    if first {
      BehindLine(line, inbuf[at..], l, sep, pos);
      Suffix(inbuf, at, pos - |line| + 1);
    } else {
      Suffix(inbuf, |inbuf| - left, pos + 1);
    }
  }

  /** A separator that is not in the first part is found in the second. */
  lemma BehindLine(line: string, more: string, l: string, sep: char, pos: nat)
    requires l == line + more && sep !in line && pos < |l| && l[pos] == sep
    ensures pos >= |line| && l[pos + 1..] == more[pos - |line| + 1..]
  {
  }

  lemma Suffix(s: string, p: nat, n: nat)
    requires p + n <= |s|
    ensures s[p..][n..] == s[p + n..] == s[|s| - |s[p + n..]|..]
  {
  }

  // ----- many reads -----

  function Joined(cuts: seq<string>): string {
    if cuts == [] then "" else Joined(cuts[..|cuts| - 1]) + cuts[|cuts| - 1]
  }

  lemma JoinedMore(before: string, cuts: seq<string>, i: nat)
    requires i < |cuts|
    ensures Joined(cuts[..i + 1]) == Joined(cuts[..i]) + cuts[i] && cuts[i] in cuts
    ensures before + Joined(cuts[..i + 1]) == (before + Joined(cuts[..i])) + cuts[i]
  {
    assert cuts[..i + 1][..i] == cuts[..i];
    assert before + (Joined(cuts[..i]) + cuts[i]) == (before + Joined(cuts[..i])) + cuts[i];
  }

  lemma {:induction false} JoinedPrefix(cuts: seq<string>, i: nat)
    requires i <= |cuts|
    ensures Joined(cuts[..i]) <= Joined(cuts)
    decreases |cuts| - i
  {
    if i == |cuts| {
      assert cuts[..i] == cuts;
    } else {
      JoinedMore("", cuts, i);
      JoinedPrefix(cuts, i + 1);
    }
  }

  /** No stretch of the stream without a separator is longer than max. */
  ghost predicate ShortLines(sep: char, stream: string, max: nat) {
    forall i, j :: 0 <= i <= j <= |stream| && sep !in stream[i..j] ==> j - i <= max
  }

  lemma TailIsLine(sep: char, react: Listener, stream: string, max: nat)
    requires var o := Scan(sep, react, [], stream); o.mode == LineMode && !o.hungUp && |o.tail| > max
    ensures !ShortLines(sep, stream, max)
  {
    var pieces, left := ScanAccounts(sep, react, [], stream);
    assert stream[|stream| - |left|..|stream|] == left;
  }
}
