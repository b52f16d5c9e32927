/**
  Random draws. math/rand is not modelled: a draw is any value in its stated range, so what is
  proved holds for every seed and every generator.
 */
module Draws {
  import opened Wrappers

  /** rand.Intn */
  method Intn(n: nat) returns (k: nat)
    requires n > 0
    ensures k < n
  {
    k :| k < n;
  }

  /** mutate.go's randomBytes */
  method RandomBytes(n: nat) returns (bytes: seq<Byte>)
    ensures |bytes| == n
  {
    bytes := [];
    for i := 0 to n
      invariant |bytes| == i
    {
      var b := Intn(256);
      bytes := bytes + [b];
    }
  }

  /** mutate.go's randomDataLength */
  method RandomDataLength(max: int) returns (length: nat)
    ensures 1 <= length && (length <= max || length == 1)
  {
    if max <= 1 {
      return 1;
    }
    var k := Intn(max);
    length := k + 1;
  }

  /** mutate.go's randomFileMode: 0o600 and up. */
  method RandomFileMode() returns (mode: nat)
    ensures 0x180 <= mode <= 0x1ff
  {
    var k := Intn(0x80);
    mode := 0x180 + k;
  }

  /** mutate.go's randomDirMode: 0o700 and up. */
  method RandomDirMode() returns (mode: nat)
    ensures 0x1c0 <= mode <= 0x1ff
  {
    var k := Intn(0x40);
    mode := 0x1c0 + k;
  }
}
