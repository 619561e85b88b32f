/**
  The redaction loop: while the secret occurs in the buffer, its first occurrence is
  replaced by the marker and the search starts again from the beginning.

  Bytes are written as characters.
 */
module Redaction {
  import opened Wrappers

  type Bytes = string
  const WORDS: Bytes := "REDACTED_CREDENTIAL"
  const MARKER: Bytes := "[" + WORDS + "]"

  predicate At(secret: Bytes, buffer: Bytes, i: nat)
  {
    i + |secret| <= |buffer| && buffer[i..i + |secret|] == secret
  }

  ghost predicate Occurs(secret: Bytes, buffer: Bytes)
  {
    exists i :: At(secret, buffer, i)
  }

  /** `windows(..).position(..)`, from an index on. */
  function FindFrom(secret: Bytes, buffer: Bytes, from: nat): (r: Option<nat>)
    requires from <= |buffer|
    ensures r.Some? ==> r.value >= from && At(secret, buffer, r.value)
    ensures forall j | from <= j && (r.None? || j < r.value) :: !At(secret, buffer, j)
    decreases |buffer| - from
  {
    if At(secret, buffer, from) then Some(from)
    else if from == |buffer| then None
    else FindFrom(secret, buffer, from + 1)
  }

  function Find(secret: Bytes, buffer: Bytes): (r: Option<nat>)
    ensures r.None? <==> !Occurs(secret, buffer)
    ensures r.Some? ==> At(secret, buffer, r.value) && forall j | 0 <= j < r.value :: !At(secret, buffer, j)
  {
    FindFrom(secret, buffer, 0)
  }

  function Spliced(secret: Bytes, buffer: Bytes, i: nat): Bytes
    requires At(secret, buffer, i)
  {
    buffer[..i] + MARKER + buffer[i + |secret|..]
  }

  // ------------------------------------------------------------ secrets without overlap

  /** Brackets, if any, only where the marker has its own. */
  predicate OverlapFree(secret: Bytes)
  {
    forall k | 0 <= k < |secret| :: (secret[k] == '[' ==> k == 0) && (secret[k] == ']' ==> k == |secret| - 1)
  }

  lemma NoCommonByteIsOverlapFree(secret: Bytes)
    requires forall k | 0 <= k < |secret| :: secret[k] !in MARKER
    ensures OverlapFree(secret) && (secret != [] ==> !Occurs(secret, MARKER))
  {
    assert MARKER[0] == '[' && MARKER[20] == ']';
    if secret != [] {
      forall i: nat
        ensures !At(secret, MARKER, i)
      {
        if i + |secret| <= |MARKER| {
          assert MARKER[i..i + |secret|][0] == MARKER[i] != secret[0];
        }
      }
    }
  }

  /** No occurrence touches an inserted marker. */
  lemma NoOccurrenceTouchesMarker(secret: Bytes, x: Bytes, y: Bytes, i: nat)
    requires OverlapFree(secret) && !Occurs(secret, MARKER) && At(secret, x + MARKER + y, i)
    ensures i + |secret| <= |x| || i >= |x| + |MARKER|
  {
    var b, n := x + MARKER + y, |secret|;
    assert forall k | 0 <= k < n :: secret[k] == b[i + k];
    assert b[|x|] == '[' && b[|x| + 20] == ']';
    if i + n > |x| && i < |x| + |MARKER| {
      if i <= |x| {
        assert secret[|x| - i] == '[';
        assert i == |x|;
      }
      if i + n > |x| + 20 {
        assert secret[|x| + 20 - i] == ']';
      }
      assert MARKER[i - |x|..i - |x| + n] == b[i..i + n];
      assert At(secret, MARKER, i - |x|);
    }
  }

  /** The single pass from left to right over non-overlapping occurrences. */
  function SinglePass(secret: Bytes, marker: Bytes, buffer: Bytes): Bytes
    requires secret != []
    decreases |buffer|
  {
    match Find(secret, buffer)
    case None => buffer
    case Some(i) => buffer[..i] + marker + SinglePass(secret, marker, buffer[i + |secret|..])
  }

  // -------------------------------------------------------------------- other secrets

  /**
    A bracket that is not at the secret's end moves outward with every replacement. The
    weight counts, for each such bracket, the bytes outside it; brackets further in count
    for a twenty-first each, since a replacement adds less than twenty bytes.
   */
  function Weight(c: char, buffer: Bytes): nat
  {
    if buffer == [] then 0
    else
      var n := |buffer| - 1;
      if buffer[n] == c then 21 * Weight(c, buffer[..n]) + n else Weight(c, buffer[..n])
  }

  lemma {:induction false} WeightWithout(c: char, a: Bytes, b: Bytes)
    requires c !in b
    ensures Weight(c, a + b) == Weight(c, a)
    decreases |b|
  {
    if b == [] {
      assert a + b == a;
    } else {
      var n := |b| - 1;
      assert (a + b)[..|a| + n] == a + b[..n] && b[n] in b;
      WeightWithout(c, a, b[..n]);
    }
  }

  lemma WeightNext(c: char, a: Bytes)
    ensures Weight(c, a + [c]) == 21 * Weight(c, a) + |a|
  {
    assert (a + [c])[..|a|] == a;
  }

  lemma WeightOfOne(c: char, x: Bytes, u: Bytes, v: Bytes)
    requires c !in u && c !in v
    ensures Weight(c, x + (u + [c] + v)) == 21 * Weight(c, x) + |x| + |u|
  {
    hide Weight;
    assert x + (u + [c] + v) == (x + u) + [c] + v;
    WeightWithout(c, (x + u) + [c], v);
    WeightNext(c, x + u);
    WeightWithout(c, x, u);
  }

  lemma {:induction false} WeightDrops(c: char, x: Bytes, s: Bytes, m: Bytes, y: Bytes)
    requires |s| >= 2 && |m| <= 21 && Weight(c, x + s) > Weight(c, x + m)
    ensures Weight(c, x + s + y) > Weight(c, x + m + y)
    decreases |y|
  {
    if y == [] {
      assert x + s + y == x + s && x + m + y == x + m;
    } else {
      var n := |y| - 1;
      assert (x + s + y)[..|x + s| + n] == x + s + y[..n];
      assert (x + m + y)[..|x + m| + n] == x + m + y[..n];
      WeightDrops(c, x, s, m, y[..n]);
    }
  }

  function Reversed(s: Bytes): (r: Bytes)
    ensures |r| == |s|
  {
    seq(|s|, i requires 0 <= i < |s| => s[|s| - 1 - i])
  }

  lemma ReversedThree(x: Bytes, s: Bytes, y: Bytes)
    ensures Reversed(x + s + y) == Reversed(y) + Reversed(s) + Reversed(x)
  {
  }

  function Count(c: char, s: Bytes): nat
  {
    multiset(s)[c]
  }

  lemma CountThree(c: char, x: Bytes, s: Bytes, y: Bytes)
    ensures Count(c, x + s + y) == Count(c, x) + Count(c, s) + Count(c, y)
  {
  }

  /** An opening bracket that is not the first byte. */
  predicate OpensInside(secret: Bytes)
  {
    exists k | 0 < k < |secret| :: secret[k] == '['
  }

  function Brackets(secret: Bytes, buffer: Bytes): nat
  {
    if OpensInside(secret) then Count('[', buffer) else Count(']', buffer)
  }

  function Distance(secret: Bytes, buffer: Bytes): nat
  {
    if OpensInside(secret) then Weight('[', buffer) else Weight(']', Reversed(buffer))
  }

  /** A sequence with exactly one `c`, not at the front, weighs more than one led by its only `c`. */
  lemma OneMovesOut(c: char, x: Bytes, s: Bytes, m: Bytes, y: Bytes, k: nat)
    requires 0 < k < |s| && s[k] == c && Count(c, s) == 1
    requires |m| == 21 && m[0] == c && c !in m[1..]
    ensures Weight(c, x + s + y) > Weight(c, x + m + y)
  {
    var u, v := s[..k], s[k + 1..];
    assert s == u + [c] + v;
    CountThree(c, u, [c], v);
    assert c !in u && c !in v by {
      assert c in u ==> Count(c, u) > 0;
      assert c in v ==> Count(c, v) > 0;
    }
    WeightOfOne(c, x, u, v);
    assert m == [] + [c] + m[1..];
    WeightOfOne(c, x, [], m[1..]);
    WeightDrops(c, x, s, m, y);
  }

  /** A secret with an opening bracket inside. */
  lemma OpeningMovesOut(secret: Bytes, x: Bytes, y: Bytes)
    requires OpensInside(secret)
    ensures Count('[', x + MARKER + y) < Count('[', x + secret + y)
      || (Count('[', x + MARKER + y) == Count('[', x + secret + y) && Weight('[', x + MARKER + y) < Weight('[', x + secret + y))
  {
    var k :| 0 < k < |secret| && secret[k] == '[';
    MarkerBrackets();
    CountThree('[', x, secret, y);
    CountThree('[', x, MARKER, y);
    assert Count('[', secret) >= 1;
    if Count('[', secret) == 1 {
      OneMovesOut('[', x, secret, MARKER, y, k);
    }
  }

  /** A secret with a closing bracket before its last byte, seen in a mirror. */
  lemma ClosingMovesOut(secret: Bytes, x: Bytes, y: Bytes, k: nat)
    requires k < |secret| - 1 && secret[k] == ']'
    ensures Count(']', x + MARKER + y) < Count(']', x + secret + y)
      || (Count(']', x + MARKER + y) == Count(']', x + secret + y)
          && Weight(']', Reversed(x + MARKER + y)) < Weight(']', Reversed(x + secret + y)))
  {
    MarkerBrackets();
    CountThree(']', x, secret, y);
    CountThree(']', x, MARKER, y);
    assert Count(']', secret) >= 1;
    if Count(']', secret) == 1 {
      ReversedThree(x, secret, y);
      ReversedThree(x, MARKER, y);
      CountReversed(']', secret);
      OneMovesOut(']', Reversed(y), Reversed(secret), Reversed(MARKER), Reversed(x), |secret| - 1 - k);
    }
  }

  lemma WordsHaveNoBrackets()
    ensures |WORDS| == 19 && forall i | 0 <= i < 19 :: WORDS[i] != '[' && WORDS[i] != ']'
  {
  }

  lemma BracketedWords(words: Bytes)
    requires forall i | 0 <= i < |words| :: words[i] != '[' && words[i] != ']'
    ensures var m := "[" + words + "]"; m[0] == '[' && '[' !in m[1..] && Count('[', m) == 1
    ensures var m := "[" + words + "]"; var r := Reversed(m); r[0] == ']' && ']' !in r[1..] && Count(']', m) == 1
  {
    var m := "[" + words + "]";
    var r := Reversed(m);
    assert forall i | 0 <= i < |words| + 1 :: r[1..][i] == m[|words| - i];
    assert m[1..] == words + "]";
    CountThree('[', "[", words, "]");
    CountThree(']', "[", words, "]");
  }

  lemma MarkerBrackets()
    ensures |MARKER| == 21 && MARKER[0] == '[' && '[' !in MARKER[1..] && Count('[', MARKER) == 1
    ensures var r := Reversed(MARKER); r[0] == ']' && ']' !in r[1..] && Count(']', MARKER) == 1
  {
    hide Reversed, Count;
    WordsHaveNoBrackets();
    BracketedWords(WORDS);
  }

  lemma {:induction false} CountReversed(c: char, s: Bytes)
    ensures Count(c, Reversed(s)) == Count(c, s)
  {
    if s != [] {
      var n := |s| - 1;
      CountReversed(c, s[..n]);
      assert s == s[..n] + [s[n]] && Reversed(s) == [s[n]] + Reversed(s[..n]);
    }
  }

  /** Every replacement brings a secret that can overlap the marker nearer to the end. */
  lemma ReplacementDescends(secret: Bytes, buffer: Bytes, i: nat)
    requires At(secret, buffer, i) && !OverlapFree(secret)
    ensures var after := Spliced(secret, buffer, i);
      Brackets(secret, after) < Brackets(secret, buffer)
      || (Brackets(secret, after) == Brackets(secret, buffer) && Distance(secret, after) < Distance(secret, buffer))
  {
    var x, y := buffer[..i], buffer[i + |secret|..];
    assert buffer == x + secret + y;
    hide Weight;
    if OpensInside(secret) {
      OpeningMovesOut(secret, x, y);
    } else {
      var k :| 0 <= k < |secret| && secret[k] == ']' && k != |secret| - 1;
      ClosingMovesOut(secret, x, y, k);
    }
  }

  // -------------------------------------------------------------------------- the loop

  /** The buffer after at most `n` turns of the loop. */
  function Turned(secret: Bytes, buffer: Bytes, n: nat): Bytes
    decreases n
  {
    if n == 0 then buffer
    else match Find(secret, buffer)
      case None => buffer
      case Some(i) => Turned(secret, Spliced(secret, buffer, i), n - 1)
  }

  lemma {:induction false} TurnedOneMore(secret: Bytes, buffer: Bytes, n: nat)
    ensures var bytes := Turned(secret, buffer, n);
      Turned(secret, buffer, n + 1) ==
        if Find(secret, bytes).None? then bytes else Spliced(secret, bytes, Find(secret, bytes).value)
    decreases n
  {
    hide Find, Spliced;
    if n > 0 && Find(secret, buffer).Some? {
      TurnedOneMore(secret, Spliced(secret, buffer, Find(secret, buffer).value), n - 1);
    }
  }

  /**
    The loop on every input on which it ends. The secret is gone afterwards; the result comes
    from replacing first occurrences by the marker and from nothing else; and if the secret
    cannot overlap the marker, it is that of the single pass.
   */
  method RedactBytes(buffer: Bytes, secret: Bytes) returns (bytes: Bytes)
    requires !Occurs(secret, MARKER) || !Occurs(secret, buffer)
    ensures secret == [] ==> bytes == buffer
    ensures secret != [] ==> !Occurs(secret, bytes)
    ensures exists n :: bytes == Turned(secret, buffer, n)
    ensures secret != [] && OverlapFree(secret) ==> bytes == SinglePass(secret, MARKER, buffer)
  {
    hide Passed, Find, Occurs, Brackets, Distance, SinglePass, OverlapFree;
    bytes := buffer;
    ghost var turns := 0;
    assert bytes == Turned(secret, buffer, turns);
    if secret == [] { return; }
    var position := Find(secret, bytes);
    ghost var prefix, rest := "", bytes;
    PassedNothing(secret, buffer);
    while position.Some?
      invariant position == Find(secret, bytes)
      invariant position.Some? ==> !Occurs(secret, MARKER)
      invariant bytes == Turned(secret, buffer, turns)
      invariant OverlapFree(secret) ==> bytes == prefix + rest && Passed(secret, buffer, prefix, rest)
      decreases if OverlapFree(secret) then 0 else Brackets(secret, bytes),
                if OverlapFree(secret) then |rest| else Distance(secret, bytes)
    {
      var index := position.value;
      TurnedOneMore(secret, buffer, turns);
      turns := turns + 1;
      if OverlapFree(secret) {
        PassedOn(secret, buffer, prefix, rest, index);
        ghost var k := index - |prefix|;
        prefix, rest := prefix + rest[..k] + MARKER, rest[k + |secret|..];
      } else {
        ReplacementDescends(secret, bytes, index);
      }
      bytes := bytes[..index] + MARKER + bytes[index + |secret|..];
      position := Find(secret, bytes);
    }
    if OverlapFree(secret) {
      PassedAll(secret, buffer, prefix, rest);
    }
  }

  /** No occurrence starts before `done`. */
  ghost predicate Clear(secret: Bytes, bytes: Bytes, done: nat)
  {
    done <= |bytes| && forall j | 0 <= j < done :: !At(secret, bytes, j)
  }

  lemma ClearGrows(secret: Bytes, bytes: Bytes, done: nat, index: nat)
    requires secret != [] && OverlapFree(secret) && !Occurs(secret, MARKER)
    requires Clear(secret, bytes, done) && Find(secret, bytes) == Some(index)
    ensures var after, now := Spliced(secret, bytes, index), index + |MARKER|;
      Clear(secret, after, now) && |after| - now < |bytes| - done
  {
    NothingBefore(secret, bytes, index);
  }

  /** The prefix is what the single pass makes of what stood there, and holds nothing more to find. */
  ghost predicate Passed(secret: Bytes, buffer: Bytes, prefix: Bytes, rest: Bytes)
    requires secret != []
  {
    && Clear(secret, prefix + rest, |prefix|)
    && SinglePass(secret, MARKER, buffer) == prefix + SinglePass(secret, MARKER, rest)
  }

  lemma PassedNothing(secret: Bytes, buffer: Bytes)
    requires secret != []
    ensures "" + buffer == buffer && Passed(secret, buffer, "", buffer)
  {
    hide SinglePass;
  }

  lemma AtInRest(secret: Bytes, prefix: Bytes, rest: Bytes, j: nat)
    ensures At(secret, rest, j) == At(secret, prefix + rest, |prefix| + j)
  {
    if j + |secret| <= |rest| {
      assert rest[j..j + |secret|] == (prefix + rest)[|prefix| + j..|prefix| + j + |secret|];
    }
  }

  /** Behind a prefix without occurrences the same occurrence is found. */
  lemma FindInRest(secret: Bytes, prefix: Bytes, rest: Bytes)
    requires Clear(secret, prefix + rest, |prefix|)
    ensures match Find(secret, prefix + rest)
            case None => Find(secret, rest) == None
            case Some(i) => |prefix| <= i && Find(secret, rest) == Some(i - |prefix|)
  {
    hide At, Find;
    forall j: nat
      ensures At(secret, rest, j) == At(secret, prefix + rest, |prefix| + j)
    {
      AtInRest(secret, prefix, rest, j);
    }
    var found, inRest := Find(secret, prefix + rest), Find(secret, rest);
    assert inRest.Some? ==> At(secret, prefix + rest, |prefix| + inRest.value);
    assert found.Some? ==> At(secret, rest, found.value - |prefix|);
  }

  lemma PassStep(secret: Bytes, m: Bytes, buffer: Bytes, i: nat)
    requires secret != [] && Find(secret, buffer) == Some(i)
    ensures i + |secret| <= |buffer|
    ensures SinglePass(secret, m, buffer) == buffer[..i] + m + SinglePass(secret, m, buffer[i + |secret|..])
  {
  }

  lemma SpliceInRest(prefix: Bytes, rest: Bytes, m: Bytes, k: nat, n: nat, tail: Bytes)
    requires k + n <= |rest|
    ensures var bytes := prefix + rest;
      bytes[..|prefix| + k] + m + bytes[|prefix| + k + n..] == prefix + rest[..k] + m + rest[k + n..]
    ensures prefix + (rest[..k] + m + tail) == prefix + rest[..k] + m + tail
  {
    var bytes := prefix + rest;
    assert bytes[..|prefix| + k] == prefix + rest[..k];
    assert bytes[|prefix| + k + n..] == rest[k + n..];
  }

  /** One turn of the loop: the prefix grows over the marker, and the rest shrinks. */
  lemma PassedOn(secret: Bytes, buffer: Bytes, prefix: Bytes, rest: Bytes, index: nat)
    requires secret != [] && OverlapFree(secret) && !Occurs(secret, MARKER)
    requires Passed(secret, buffer, prefix, rest) && Find(secret, prefix + rest) == Some(index)
    ensures |prefix| <= index && index - |prefix| + |secret| <= |rest|
    ensures var k, bytes := index - |prefix|, prefix + rest;
      && Passed(secret, buffer, prefix + rest[..k] + MARKER, rest[k + |secret|..])
      && bytes[..index] + MARKER + bytes[index + |secret|..] == prefix + rest[..k] + MARKER + rest[k + |secret|..]
  {
    hide At, Find, SinglePass, Clear, OverlapFree;
    FindInRest(secret, prefix, rest);
    var k := index - |prefix|;
    PassStep(secret, MARKER, rest, k);
    SpliceInRest(prefix, rest, MARKER, k, |secret|, SinglePass(secret, MARKER, rest[k + |secret|..]));
    ClearGrows(secret, prefix + rest, |prefix|, index);
  }

  /** Up to the end of the marker put in for the first occurrence, nothing occurs. */
  lemma NothingBefore(secret: Bytes, bytes: Bytes, index: nat)
    requires secret != [] && OverlapFree(secret) && !Occurs(secret, MARKER) && Find(secret, bytes) == Some(index)
    ensures index + |secret| <= |bytes|
    ensures var after := bytes[..index] + MARKER + bytes[index + |secret|..];
      forall j | 0 <= j < index + |MARKER| :: !At(secret, after, j)
  {
    var after := bytes[..index] + MARKER + bytes[index + |secret|..];
    forall j | 0 <= j < index + |MARKER|
      ensures !At(secret, after, j)
    {
      if At(secret, after, j) {
        OccurredBefore(secret, bytes, index, j);
      }
    }
  }

  /** What occurs before the end of an inserted marker occurred there before it was inserted. */
  lemma OccurredBefore(secret: Bytes, bytes: Bytes, index: nat, j: nat)
    requires secret != [] && OverlapFree(secret) && !Occurs(secret, MARKER)
    requires At(secret, bytes, index) && j < index + |MARKER|
    requires At(secret, bytes[..index] + MARKER + bytes[index + |secret|..], j)
    ensures j < index && At(secret, bytes, j)
  {
    var x, y := bytes[..index], bytes[index + |secret|..];
    NoOccurrenceTouchesMarker(secret, x, y, j);
    assert (x + MARKER + y)[j..j + |secret|] == bytes[j..j + |secret|];
  }

  lemma PassedAll(secret: Bytes, buffer: Bytes, prefix: Bytes, rest: Bytes)
    requires secret != [] && Passed(secret, buffer, prefix, rest) && !Occurs(secret, prefix + rest)
    ensures prefix + rest == SinglePass(secret, MARKER, buffer)
  {
    FindInRest(secret, prefix, rest);
  }

  // ----------------------------------------------------------------- when the loop ends

  ghost predicate Ends(secret: Bytes, buffer: Bytes)
  {
    exists n :: !Occurs(secret, Turned(secret, buffer, n))
  }

  /** A secret that is part of the marker is put back by every replacement. */
  lemma {:induction false} PartOfMarkerStays(secret: Bytes, buffer: Bytes, n: nat)
    requires Occurs(secret, MARKER) && Occurs(secret, buffer)
    ensures Occurs(secret, Turned(secret, buffer, n))
    decreases n
  {
    hide At, Spliced, Find, Occurs;
    if n > 0 {
      var i := Find(secret, buffer).value;
      SplicedHoldsPart(secret, buffer, i);
      PartOfMarkerStays(secret, Spliced(secret, buffer, i), n - 1);
    }
  }

  lemma SplicedHoldsPart(secret: Bytes, buffer: Bytes, i: nat)
    requires Occurs(secret, MARKER) && At(secret, buffer, i)
    ensures Occurs(secret, Spliced(secret, buffer, i))
  {
    var j :| At(secret, MARKER, j);
    OccursInside(secret, buffer[..i], MARKER, buffer[i + |secret|..], j);
    hide At;
  }

  lemma OccursInside(secret: Bytes, x: Bytes, m: Bytes, y: Bytes, j: nat)
    requires At(secret, m, j)
    ensures Occurs(secret, x + m + y)
  {
    assert (x + m + y)[|x| + j..|x| + j + |secret|] == m[j..j + |secret|];
    assert At(secret, x + m + y, |x| + j);
  }

  lemma {:induction false} OtherSecretsEnd(secret: Bytes, bytes: Bytes, done: nat) returns (n: nat)
    requires secret != [] && !Occurs(secret, MARKER)
    requires OverlapFree(secret) ==> Clear(secret, bytes, done)
    ensures !Occurs(secret, Turned(secret, bytes, n))
    decreases if OverlapFree(secret) then 0 else Brackets(secret, bytes),
              if OverlapFree(secret) then |bytes| - done else Distance(secret, bytes)
  {
    hide Brackets, Distance, OverlapFree, Clear, At, Spliced;
    match Find(secret, bytes)
    case None => n := 0;
    case Some(index) =>
      if OverlapFree(secret) {
        ClearGrows(secret, bytes, done, index);
      } else {
        ReplacementDescends(secret, bytes, index);
      }
      var m := OtherSecretsEnd(secret, Spliced(secret, bytes, index), index + |MARKER|);
      n := m + 1;
  }

  /** The loop ends exactly when the secret is no part of the marker, or has nothing to replace. */
  lemma EndsExactly(secret: Bytes, buffer: Bytes)
    requires secret != []
    ensures Ends(secret, buffer) <==> !Occurs(secret, MARKER) || !Occurs(secret, buffer)
  {
    if !Occurs(secret, buffer) {
      assert Turned(secret, buffer, 0) == buffer;
    } else if Occurs(secret, MARKER) {
      forall n: nat
        ensures Occurs(secret, Turned(secret, buffer, n))
      {
        PartOfMarkerStays(secret, buffer, n);
      }
    } else {
      var n := OtherSecretsEnd(secret, buffer, 0);
    }
  }

  /** For a secret that can overlap the marker the single pass is not enough: it may leave one behind. */
  lemma SinglePassMayLeaveSecret()
    ensures !OverlapFree("a[") && Occurs("a[", SinglePass("a[", MARKER, "aa["))
  {
    var secret, buffer := "a[", "aa[";
    assert secret[1] == '[';
    assert buffer[0..2] == "aa" && buffer[1..3] == "a[";
    assert !At(secret, buffer, 0) && At(secret, buffer, 1);
    assert Find(secret, buffer) == Some(1);
    var rest := SinglePass(secret, MARKER, buffer[3..]);
    var pass := buffer[..1] + MARKER + rest;
    assert pass[0..2] == "a[";
    assert At(secret, pass, 0);
  }
}
