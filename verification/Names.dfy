/** The string hash shared by the semaphore and the pipe tables. */
module Names {

  const WORD32 := 0x1_0000_0000

  /** A name's byte as the signed `char` it is read as. */
  function Signed(c: char): (v: int)
    ensures -128 <= v < 128 && (v - c as int) % 256 == 0
  {
    var b := c as int % 256;
    if b < 128 then b else b - 256
  }

  function HashFrom(name: string, hash: int): (h: int)
    requires 0 <= hash < WORD32
    ensures 0 <= h < WORD32
  {
    if name == [] then hash else HashFrom(name[1..], (hash * 33 + Signed(name[0])) % WORD32)
  }

  function Hash(name: string, buckets: nat): (b: nat)
    requires buckets > 0
    ensures b < buckets
  {
    HashFrom(name, 5381) % buckets
  }
}
