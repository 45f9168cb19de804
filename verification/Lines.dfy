/** Bytes and newline-terminated lines. */
module Lines {
  import opened Results

  type Byte = bv8

  type Bytes = seq<Byte>

  const NEWLINE: Byte := 10

  /** Where the first newline at or after `from` is: Python's find, with None for -1. */
  function FindNewline(b: Bytes, from: nat): (r: Option<nat>)
    requires from <= |b|
    ensures r.Some? ==> from <= r.value < |b| && b[r.value] == NEWLINE && NEWLINE !in b[from..r.value]
    ensures r.None? ==> NEWLINE !in b[from..]
    decreases |b| - from
  {
    if from == |b| then None
    else if b[from] == NEWLINE then Some(from)
    else
      var r := FindNewline(b, from + 1);
      assert b[from..] == [b[from]] + b[from + 1..];
      assert r.Some? ==> b[from..r.value] == [b[from]] + b[from + 1..r.value];
      r
  }

  /** readline: up to and including the first newline, or everything when there is none. */
  function FirstLine(b: Bytes): (line: Bytes)
    requires b != []
    ensures 0 < |line| <= |b| && line == b[..|line|]
    ensures NEWLINE !in line[..|line| - 1]
    ensures line[|line| - 1] == NEWLINE || line == b
  {
    var at := FindNewline(b, 0);
    if at.Some? then b[..at.value + 1] else b
  }

  lemma {:induction false} FindFirst(b: Bytes, from: nat, k: nat)
    requires from <= k < |b| && b[k] == NEWLINE && forall i :: from <= i < k ==> b[i] != NEWLINE
    ensures FindNewline(b, from) == Some(k)
    decreases k - from
  {
    if from >= k {
    } else {
      FindFirst(b, from + 1, k);
    }
  }

  lemma FirstLineOf(line: Bytes, rest: Bytes)
    requires NEWLINE !in line
    ensures FirstLine(line + [NEWLINE] + rest) == line + [NEWLINE]
  {
    var b := line + [NEWLINE] + rest;
    assert forall i :: 0 <= i < |line| ==> b[i] == line[i];
    FindFirst(b, 0, |line|);
  }

  lemma FirstLineUnterminated(b: Bytes)
    requires b != [] && NEWLINE !in b
    ensures FirstLine(b) == b
  {
  }
}
