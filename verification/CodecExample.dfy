/** A codec that obeys the laws the ledger assumes of JSON, so those laws contradict nothing. */
module CodecExample {
  import opened Lines
  import opened ResumeLedger

  const ONE: Byte := 49
  const COMMA: Byte := 44
  const SEMICOLON: Byte := 59
  const MINUS: Byte := 45
  const PLUS: Byte := 43
  const OPEN: Byte := 123
  const CLOSE: Byte := 125

  function Ones(n: nat): (b: Bytes)
    ensures |b| == n && forall i :: 0 <= i < n ==> b[i] == ONE
  {
    seq(n, i => ONE)
  }

  /** Each character in unary, closed by a comma. */
  function Spelled(s: string): (b: Bytes)
    ensures forall i :: 0 <= i < |b| ==> b[i] == ONE || b[i] == COMMA
  {
    if s == [] then [] else Ones(s[0] as int) + [COMMA] + Spelled(s[1..])
  }

  function Signed(n: int): (b: Bytes)
    ensures forall i :: 0 <= i < |b| ==> b[i] == ONE || b[i] == MINUS || b[i] == PLUS
  {
    if n < 0 then [MINUS] + Ones(-n) else [PLUS] + Ones(n)
  }

  function Body(r: Row): Bytes {
    Spelled(r.key.runIdentity) + [SEMICOLON]
    + (Spelled(r.key.symbol) + [SEMICOLON]
       + (Spelled(r.key.candidateId) + [SEMICOLON]
          + (Signed(r.key.fold) + [SEMICOLON] + Spelled(r.payload))))
  }

  function Encoded(r: Row): Bytes {
    [OPEN] + Body(r) + [CLOSE]
  }

  /** The first separator splits a text one way only. */
  lemma SplitIsUnique(a: Bytes, b: Bytes, c: Bytes, d: Bytes, separator: Byte)
    requires a + [separator] + b == c + [separator] + d && separator !in a && separator !in c
    ensures a == c && b == d
  {
    var left, right := a + [separator] + b, c + [separator] + d;
    assert left[|a|] == separator && right[|c|] == separator;
    assert forall i :: 0 <= i < |a| ==> left[i] == a[i];
    assert forall i :: 0 <= i < |c| ==> right[i] == c[i];
    assert |a| == |c|;
    assert a == left[..|a|] && c == right[..|c|];
    assert b == left[|a| + 1..] && d == right[|c| + 1..];
  }

  lemma {:induction false} SpelledIsInjective(s: string, t: string)
    requires Spelled(s) == Spelled(t)
    ensures s == t
  {
    if s == [] || t == [] {
    } else {
      SplitIsUnique(Ones(s[0] as int), Spelled(s[1..]), Ones(t[0] as int), Spelled(t[1..]), COMMA);
      assert |Ones(s[0] as int)| == |Ones(t[0] as int)|;
      SpelledIsInjective(s[1..], t[1..]);
      assert s == [s[0]] + s[1..] && t == [t[0]] + t[1..];
    }
  }

  lemma SignedIsInjective(m: int, n: int)
    requires Signed(m) == Signed(n)
    ensures m == n
  {
    assert Signed(m)[0] == Signed(n)[0];
    assert |Signed(m)| == |Signed(n)|;
  }

  lemma EncodedIsInjective(r: Row, s: Row)
    requires Encoded(r) == Encoded(s)
    ensures r == s
  {
    hide Spelled, Signed;
    assert Encoded(r)[1..|Encoded(r)| - 1] == Body(r) && Encoded(s)[1..|Encoded(s)| - 1] == Body(s);
    var r3, s3 := Signed(r.key.fold) + [SEMICOLON] + Spelled(r.payload),
      Signed(s.key.fold) + [SEMICOLON] + Spelled(s.payload);
    var r2, s2 := Spelled(r.key.candidateId) + [SEMICOLON] + r3, Spelled(s.key.candidateId) + [SEMICOLON] + s3;
    var r1, s1 := Spelled(r.key.symbol) + [SEMICOLON] + r2, Spelled(s.key.symbol) + [SEMICOLON] + s2;
    SplitIsUnique(Spelled(r.key.runIdentity), r1, Spelled(s.key.runIdentity), s1, SEMICOLON);
    SplitIsUnique(Spelled(r.key.symbol), r2, Spelled(s.key.symbol), s2, SEMICOLON);
    SplitIsUnique(Spelled(r.key.candidateId), r3, Spelled(s.key.candidateId), s3, SEMICOLON);
    SplitIsUnique(Signed(r.key.fold), Spelled(r.payload), Signed(s.key.fold), Spelled(s.payload), SEMICOLON);
    SpelledIsInjective(r.key.runIdentity, s.key.runIdentity);
    SpelledIsInjective(r.key.symbol, s.key.symbol);
    SpelledIsInjective(r.key.candidateId, s.key.candidateId);
    SignedIsInjective(r.key.fold, s.key.fold);
    SpelledIsInjective(r.payload, s.payload);
  }

  /** Brackets appear at the ends only, and no newline anywhere. */
  lemma EncodedShape(r: Row)
    ensures var b := Encoded(r);
            && |b| >= 2 && b[0] == OPEN && b[|b| - 1] == CLOSE
            && forall i :: 0 < i < |b| - 1 ==> b[i] != OPEN && b[i] != CLOSE && b[i] != NEWLINE
  {
    hide Spelled, Signed;
    var b, body := Encoded(r), Body(r);
    assert forall i :: 0 < i < |b| - 1 ==> b[i] == body[i - 1];
  }

  ghost function Parsing(b: Bytes): Parsed {
    if exists r :: b == Encoded(r) then var r :| b == Encoded(r); RowOf(r)
    else if exists r :: b == Encoded(r) + [NEWLINE] then var r :| b == Encoded(r) + [NEWLINE]; RowOf(r)
    else Malformed
  }

  lemma ParsingInverts(r: Row)
    ensures Parsing(Encoded(r)) == RowOf(r) && Parsing(Encoded(r) + [NEWLINE]) == RowOf(r)
  {
    hide Encoded;
    var line := Encoded(r) + [NEWLINE];
    EncodedShape(r);
    forall s ensures Encoded(s) == Encoded(r) ==> s == r {
      if Encoded(s) == Encoded(r) {
        EncodedIsInjective(s, r);
      }
    }
    forall s ensures Encoded(s) != line {
      EncodedShape(s);
      assert line[|line| - 1] == NEWLINE;
    }
    forall s | Encoded(s) + [NEWLINE] == line ensures s == r {
      assert (Encoded(s) + [NEWLINE])[..|Encoded(s)|] == Encoded(s) && line[..|Encoded(r)|] == Encoded(r);
      EncodedIsInjective(s, r);
    }
  }

  /** Text with an opening bracket only at the start and something after its first closing bracket is no row. */
  lemma NotARow(b: Bytes)
    requires (forall i :: 0 <= i < |b| ==> b[i] != CLOSE)
          || (exists i :: 0 < i < |b| && b[i] == OPEN)
    ensures Parsing(b) == Malformed
  {
    hide Encoded;
    forall r ensures b != Encoded(r) && b != Encoded(r) + [NEWLINE] {
      EncodedShape(r);
      var e := Encoded(r);
      assert e[|e| - 1] == CLOSE && (e + [NEWLINE])[|e| - 1] == CLOSE;
      assert forall i :: 0 <= i < |e| ==> (e + [NEWLINE])[i] == e[i];
    }
  }

  /** Some codec is lawful. */
  lemma SomeCodecIsLawful()
    ensures exists c :: Lawful(c)
  {
    hide Encoded, Parsing;
    var c := Codec(r => Encoded(r), b => Parsing(b));
    forall r ensures
      && c.encode(r) != [] && !IsSpace(c.encode(r)[0]) && NEWLINE !in c.encode(r)
      && c.parse(c.encode(r)) == RowOf(r) && c.parse(LineOf(c, r)) == RowOf(r)
    {
      EncodedShape(r);
      ParsingInverts(r);
    }
    forall r, k | 0 < k < |c.encode(r)| ensures c.parse(c.encode(r)[..k]) == Malformed {
      EncodedShape(r);
      NotARow(c.encode(r)[..k]);
    }
    forall r, s, k | 0 < k <= |c.encode(s)| ensures c.parse(c.encode(r) + c.encode(s)[..k]) == Malformed {
      Glued(r, s, c.encode(s)[..k]);
    }
    forall r, s ensures c.parse(c.encode(r) + LineOf(c, s)) == Malformed {
      Glued(r, s, LineOf(c, s));
    }
    assert Lawful(c);
  }

  lemma Glued(r: Row, s: Row, piece: Bytes)
    requires piece != [] && piece[0] == Encoded(s)[0]
    ensures Parsing(Encoded(r) + piece) == Malformed
  {
    hide Parsing;
    EncodedShape(r);
    EncodedShape(s);
    var b := Encoded(r) + piece;
    assert b[|Encoded(r)|] == OPEN;
    NotARow(b);
  }
}
