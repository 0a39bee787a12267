/** Byte strings, newline framing and the tokens of a frame.

    One `char` stands for one byte. The server compares bytes only with a few
    constants, so nothing here depends on how many values a byte can take.
  */
module Text {

  type Bytes = string

  const LF: char := '\n'
  const CR: char := '\r'
  const SPACE: char := ' '

  lemma Separators()
    ensures LF == '\n' && CR == '\r' && SPACE == ' '
  {
  }

  /** Position of the first `c` in `s` at or after `start`, or |s| when there is none. */
  function IndexFrom(s: Bytes, c: char, start: nat): (i: nat)
    requires start <= |s|
    ensures start <= i <= |s|
    ensures forall j :: start <= j < i ==> s[j] != c
    ensures i < |s| ==> s[i] == c
    decreases |s| - start
  {
    if start == |s| || s[start] == c then start else IndexFrom(s, c, start + 1)
  }

  function IndexOf(s: Bytes, c: char): (i: nat)
    ensures i <= |s|
    ensures forall j :: 0 <= j < i ==> s[j] != c
    ensures i < |s| ==> s[i] == c
  {
    IndexFrom(s, c, 0)
  }

  lemma IndexAfter(head: Bytes, c: char, rest: Bytes)
    requires c !in head
    ensures var s := head + [c] + rest;
      IndexOf(s, c) == |head| && s[..|head|] == head && s[|head| + 1..] == rest
  {
    var s := head + [c] + rest;
    assert forall j :: 0 <= j < |head| ==> s[j] == head[j] && head[j] in head;
    assert s[|head|] == c;
  }

  lemma Assoc<T>(a: seq<T>, b: seq<T>, c: seq<T>)
    ensures a + (b + c) == (a + b) + c
  {
  }

  function Concat(parts: seq<Bytes>): Bytes {
    if parts == [] then [] else parts[0] + Concat(parts[1..])
  }

  lemma {:induction false} ConcatAppend(parts: seq<Bytes>, last: Bytes)
    ensures Concat(parts + [last]) == Concat(parts) + last
  {
    if parts == [] {
      assert parts + [last] == [last];
    } else {
      assert (parts + [last])[1..] == parts[1..] + [last];
      ConcatAppend(parts[1..], last);
    }
  }

  // ---------------------------------------------------------------- frames

  /** The bytes of complete frames, each followed by its newline. */
  function JoinLines(frames: seq<Bytes>): Bytes {
    if frames == [] then [] else frames[0] + [LF] + JoinLines(frames[1..])
  }

  /** The complete lines of `s`; what follows the last newline is dropped. */
  function Lines(s: Bytes): seq<Bytes>
    decreases |s|
  {
    var i := IndexOf(s, LF);
    if i == |s| then [] else [s[..i]] + Lines(s[i + 1..])
  }

  predicate LineFree(s: Bytes) {
    LF !in s
  }

  predicate AllLineFree(frames: seq<Bytes>) {
    forall i :: 0 <= i < |frames| ==> LineFree(frames[i])
  }

  lemma {:induction false} JoinLinesAppend(frames: seq<Bytes>, last: Bytes)
    ensures JoinLines(frames + [last]) == JoinLines(frames) + last + [LF]
  {
    if frames == [] {
      assert frames + [last] == [last];
    } else {
      assert (frames + [last])[1..] == frames[1..] + [last];
      JoinLinesAppend(frames[1..], last);
    }
  }

  lemma JoinLinesCons(head: Bytes, tail: seq<Bytes>)
    ensures JoinLines([head] + tail) == head + [LF] + JoinLines(tail)
  {
    assert ([head] + tail)[1..] == tail;
  }

  lemma LinesStep(head: Bytes, rest: Bytes)
    requires LineFree(head)
    ensures Lines(head + [LF] + rest) == [head] + Lines(rest)
  {
    IndexAfter(head, LF, rest);
  }

  /** Splitting is the inverse of joining: however the bytes were cut into
      reads, the frames consumed so far are the first lines of the stream. */
  lemma {:induction false} LinesOfJoin(frames: seq<Bytes>, rest: Bytes)
    requires AllLineFree(frames)
    ensures Lines(JoinLines(frames) + rest) == frames + Lines(rest)
  {
    if frames == [] {
      assert JoinLines(frames) + rest == rest;
    } else {
      var tail := JoinLines(frames[1..]) + rest;
      calc {
        Lines(JoinLines(frames) + rest);
        { assert JoinLines(frames) + rest == frames[0] + [LF] + tail; }
        Lines(frames[0] + [LF] + tail);
        { LinesStep(frames[0], tail); }
        [frames[0]] + Lines(tail);
        { LinesOfJoin(frames[1..], rest); }
        [frames[0]] + (frames[1..] + Lines(rest));
        frames + Lines(rest);
      }
    }
  }

  /** What follows the last newline. */
  function Rest(s: Bytes): Bytes
    decreases |s|
  {
    var i := IndexOf(s, LF);
    if i == |s| then s else Rest(s[i + 1..])
  }

  lemma CutAt(s: Bytes, c: char)
    requires c in s
    ensures var i := IndexOf(s, c); i < |s| && s == s[..i] + [c] + s[i + 1..]
  {
  }

  /** Every stream is its complete lines joined again, and a rest. */
  lemma {:induction false} JoinOfLines(s: Bytes)
    ensures s == JoinLines(Lines(s)) + Rest(s)
    decreases |s|
  {
    var i := IndexOf(s, LF);
    if i < |s| {
      var head, tail := s[..i], s[i + 1..];
      CutAt(s, LF);
      JoinOfLines(tail);
      JoinLinesCons(head, Lines(tail));
      Assoc(head + [LF], JoinLines(Lines(tail)), Rest(tail));
    }
  }

  lemma {:induction false} LinesAreLineFree(s: Bytes)
    ensures AllLineFree(Lines(s)) && LineFree(Rest(s))
    decreases |s|
  {
    var i := IndexOf(s, LF);
    if i < |s| {
      LinesAreLineFree(s[i + 1..]);
    }
  }

  /** A stream is cut into newline-free lines and a newline-free rest in one
      way only. */
  lemma LinesUnique(s: Bytes, frames: seq<Bytes>, rest: Bytes)
    ensures s == JoinLines(frames) + rest && AllLineFree(frames) && LineFree(rest)
       <==> frames == Lines(s) && rest == Rest(s)
  {
    JoinOfLines(s);
    LinesAreLineFree(s);
    if s == JoinLines(frames) + rest && AllLineFree(frames) && LineFree(rest) {
      LinesOfJoin(frames, rest);
      assert Lines(rest) == [] && frames + [] == frames;
      assert (JoinLines(frames) + rest)[|JoinLines(frames)|..] == rest;
      assert (JoinLines(frames) + Rest(s))[|JoinLines(frames)|..] == Rest(s);
    }
  }

  /** One newline and it is the last byte. */
  predicate IsLine(m: Bytes) {
    m != [] && m[|m| - 1] == LF && LineFree(m[..|m| - 1])
  }

  /** Empty, or the last byte is a newline. */
  predicate Terminated(m: Bytes) {
    m == [] || m[|m| - 1] == LF
  }

  lemma IsLineMade(body: Bytes)
    requires LineFree(body)
    ensures IsLine(body + [LF])
    ensures Lines(body + [LF]) == [body]
  {
    assert (body + [LF])[..|body|] == body;
    LinesStep(body, []);
    assert body + [LF] + [] == body + [LF];
  }

  lemma {:induction false} LinesConcat(a: Bytes, b: Bytes)
    requires Terminated(a)
    ensures Lines(a + b) == Lines(a) + Lines(b)
    decreases |a|
  {
    if a == [] {
      assert a + b == b;
    } else {
      assert a[|a| - 1] in a;
      var i := IndexOf(a, LF);
      var head, tail := a[..i], a[i + 1..];
      calc {
        Lines(a + b);
        { assert a + b == head + [LF] + (tail + b); }
        Lines(head + [LF] + (tail + b));
        { LinesStep(head, tail + b); }
        [head] + Lines(tail + b);
        { LinesConcat(tail, b); }
        [head] + (Lines(tail) + Lines(b));
        ([head] + Lines(tail)) + Lines(b);
        Lines(a) + Lines(b);
      }
    }
  }

  // ---------------------------------------------------------------- tokens

  /** What reading with `getline(stream, token, ' ')` until it fails returns:
      a space ends a token, and a trailing space opens no empty token. */
  function TokensOf(s: Bytes): seq<Bytes>
    decreases |s|
  {
    if s == [] then []
    else
      var i := IndexOf(s, SPACE);
      if i == |s| then [s] else [s[..i]] + TokensOf(s[i + 1..])
  }

  /** Each word followed by a space. */
  function Rejoin(words: seq<Bytes>): Bytes {
    if words == [] then [] else words[0] + [SPACE] + Rejoin(words[1..])
  }

  function SpaceEnded(s: Bytes): Bytes {
    if s == [] || s[|s| - 1] == SPACE then s else s + [SPACE]
  }

  lemma SpaceEndedStep(head: Bytes, tail: Bytes)
    ensures SpaceEnded(head + [SPACE] + tail) == head + [SPACE] + SpaceEnded(tail)
  {
    Assoc(head + [SPACE], tail, [SPACE]);
  }

  /** Tokenising loses nothing but a missing final space. */
  lemma {:induction false} RejoinTokens(s: Bytes)
    ensures Rejoin(TokensOf(s)) == SpaceEnded(s)
    decreases |s|
  {
    var i := IndexOf(s, SPACE);
    if i < |s| {
      var head, tail := s[..i], s[i + 1..];
      CutAt(s, SPACE);
      RejoinTokens(tail);
      RejoinCons(head, TokensOf(tail));
      SpaceEndedStep(head, tail);
    } else if s != [] {
      RejoinCons(s, []);
      assert [s] + [] == [s];
    }
  }

  lemma RejoinCons(head: Bytes, tail: seq<Bytes>)
    ensures Rejoin([head] + tail) == head + [SPACE] + Rejoin(tail)
  {
    assert ([head] + tail)[1..] == tail;
  }

  lemma {:induction false} TokensAreSpaceFree(s: Bytes)
    ensures forall w :: w in TokensOf(s) ==> SPACE !in w
    decreases |s|
  {
    var i := IndexOf(s, SPACE);
    if i < |s| {
      TokensAreSpaceFree(s[i + 1..]);
    }
  }

  lemma {:induction false} TokensAreLineFree(s: Bytes)
    requires LineFree(s)
    ensures forall w :: w in TokensOf(s) ==> LineFree(w)
    decreases |s|
  {
    var i := IndexOf(s, SPACE);
    if i < |s| {
      TokensAreLineFree(s[i + 1..]);
    }
  }

  /** Space-free words are their own tokens: together with RejoinTokens this
      fixes TokensOf completely. */
  lemma {:induction false} TokensOfRejoin(words: seq<Bytes>)
    requires forall w :: w in words ==> SPACE !in w
    ensures TokensOf(Rejoin(words)) == words
  {
    if words != [] {
      assert words[0] in words;
      IndexAfter(words[0], SPACE, Rejoin(words[1..]));
      TokensOfRejoin(words[1..]);
    }
  }

  predicate AllSpaceFree(words: seq<Bytes>) {
    forall i :: 0 <= i < |words| ==> SPACE !in words[i]
  }

  /** The tokens are the only space-free words that rejoin to the frame. */
  lemma TokensUnique(s: Bytes, words: seq<Bytes>)
    ensures Rejoin(words) == SpaceEnded(s) && AllSpaceFree(words) <==> words == TokensOf(s)
  {
    RejoinTokens(s);
    TokensAreSpaceFree(s);
    if AllSpaceFree(words) {
      TokensOfRejoin(words);
    }
    TokensOfRejoin(TokensOf(s));
  }

  lemma {:induction false} RejoinAppend(words: seq<Bytes>, last: Bytes)
    ensures Rejoin(words + [last]) == Rejoin(words) + last + [SPACE]
  {
    if words == [] {
      assert words + [last] == [last];
    } else {
      assert (words + [last])[1..] == words[1..] + [last];
      RejoinAppend(words[1..], last);
    }
  }

  /** Where reading goes on after the token that starts at `position`. */
  function NextToken(input: Bytes, position: nat): (next: nat)
    requires position < |input|
    ensures position < next <= |input|
  {
    var length := IndexOf(input[position..], SPACE);
    if length == |input| - position then |input| else position + length + 1
  }

  lemma TokenStep(input: Bytes, position: nat)
    requires position < |input|
    ensures var rest := input[position..];
      TokensOf(rest) == [rest[..IndexOf(rest, SPACE)]] + TokensOf(input[NextToken(input, position)..])
  {
    var rest := input[position..];
    if SPACE in rest {
      DropDrop(input, position, IndexOf(rest, SPACE) + 1);
    } else {
      LastToken(rest);
    }
  }

  lemma DropDrop<T>(s: seq<T>, i: nat, j: nat)
    requires i + j <= |s|
    ensures s[i..][j..] == s[i + j..]
  {
  }

  lemma LastToken(rest: Bytes)
    requires rest != [] && SPACE !in rest
    ensures TokensOf(rest) == [rest[..IndexOf(rest, SPACE)]] + TokensOf([])
  {
    assert rest[..|rest|] == rest;
  }

  method Tokens(input: Bytes) returns (result: seq<Bytes>)
    ensures result == TokensOf(input)
  {
    result := [];
    var position := 0;
    assert input[0..] == input;
    while position < |input|
      invariant 0 <= position <= |input|
      invariant TokensOf(input) == result + TokensOf(input[position..])
      decreases |input| - position
    {
      var rest := input[position..];
      var token := rest[..IndexOf(rest, SPACE)];
      TokenStep(input, position);
      position := NextToken(input, position);
      Assoc(result, [token], TokensOf(input[position..]));
      result := result + [token];
    }
    assert input[position..] == [];
  }

  // ---------------------------------------------------------------- numbers

  function Decimal(n: nat): (s: Bytes)
    ensures s != []
    ensures forall c :: c in s ==> '0' <= c <= '9'
    ensures if n == 0 then s == "0" else s[0] != '0'
  {
    var digit := '0' + (n % 10) as char;
    if n < 10 then [digit] else Decimal(n / 10) + [digit]
  }

  /** The number that digits stand for. */
  function Value(s: Bytes): nat {
    if s == [] then 0
    else
      var c := s[|s| - 1];
      Value(s[..|s| - 1]) * 10 + (if '0' <= c <= '9' then c as nat - '0' as nat else 0)
  }

  /** Reading a decimal numeral gives the number back. */
  lemma {:induction false} ValueOfDecimal(n: nat)
    ensures Value(Decimal(n)) == n
  {
    var s := Decimal(n);
    if n < 10 {
      assert s[..0] == [];
    } else {
      ValueOfDecimal(n / 10);
      assert s[..|s| - 1] == Decimal(n / 10);
    }
  }

  /** The frame without one trailing carriage return. */
  function StripCr(frame: Bytes): Bytes {
    if frame != [] && frame[|frame| - 1] == CR then frame[..|frame| - 1] else frame
  }

  /** Exactly one is taken off, and nothing else. */
  lemma StripCrIs(frame: Bytes)
    ensures StripCr(frame + "\r") == frame
    ensures frame == [] || frame[|frame| - 1] != '\r' ==> StripCr(frame) == frame
  {
    assert (frame + "\r")[..|frame|] == frame;
  }
}
