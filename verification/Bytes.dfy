/** File contents as C bytes. */
module Bytes {
  newtype byte = x: int | 0 <= x < 256

  type Bytes = seq<byte>

  datatype Option<+T> = None | Some(value: T)

  predicate ZeroFree(b: Bytes) {
    forall i :: 0 <= i < |b| ==> b[i] != 0
  }

  /** The bytes strncpy leaves in a destination of |b| bytes: a copy up to the first zero, zeros after it. */
  function StrncpyImage(b: Bytes): (r: Bytes)
    ensures |r| == |b|
  {
    if b == [] then []
    else if b[0] == 0 then seq(|b|, _ => 0)
    else [b[0]] + StrncpyImage(b[1..])
  }

  /** strncpy copies up to the first zero and writes zeros from there on. */
  lemma {:induction false} StrncpyAt(b: Bytes, i: nat)
    requires i < |b|
    ensures StrncpyImage(b)[i] == if exists j :: 0 <= j <= i && b[j] == 0 then 0 else b[i]
  {
    if b[0] != 0 && i > 0 {
      StrncpyAt(b[1..], i - 1);
      assert forall j :: 0 <= j <= i - 1 ==> b[1..][j] == b[j + 1];
      if j :| 0 <= j <= i && b[j] == 0 { assert b[1..][j - 1] == 0; }
    }
  }

  /** The copy is faithful exactly when no non-zero byte follows a zero byte. */
  lemma {:induction false} StrncpyFaithful(b: Bytes)
    ensures StrncpyImage(b) == b <==> (forall i, j :: 0 <= i < j < |b| && b[i] == 0 ==> b[j] == 0)
  {
    if b != [] {
      if b[0] == 0 {
        assert StrncpyImage(b) == b <==> (forall j :: 0 < j < |b| ==> b[j] == 0);
      } else {
        var t := b[1..];
        StrncpyFaithful(t);
        assert b == [b[0]] + t;
        if StrncpyImage(t) == t {
          forall i, j | 0 <= i < j < |b| && b[i] == 0 ensures b[j] == 0 {
            assert t[i - 1] == 0;
            assert t[j - 1] == 0;
          }
        } else {
          var i, j :| 0 <= i < j < |t| && t[i] == 0 && t[j] != 0;
          assert b[i + 1] == 0 && b[j + 1] != 0;
          assert StrncpyImage(b)[1..] == StrncpyImage(t);
        }
      }
    }
  }

  lemma StrncpyZeroFree(b: Bytes)
    requires ZeroFree(b)
    ensures StrncpyImage(b) == b
  {
    StrncpyFaithful(b);
  }
}
