/** Types shared by the credential and payment-signing modules. */
module Common {

  /** A nullable value: `None` stands for Java's `null`. */
  datatype Option<+T> = None | Some(value: T)

  /** An unsigned octet, as Base64 and UTF-8 see it. */
  type byte = b: int | 0 <= b < 256

  /** A Java `byte`: a signed two's-complement octet. */
  type JavaByte = b: int | -128 <= b < 128

  /** Java's `0xff & b`: the unsigned value of a signed byte. */
  function Unsigned(b: JavaByte): (u: byte)
    ensures u % 256 == b % 256
    ensures 0 <= b ==> u == b
  {
    if b < 0 then b + 256 else b
  }

  /** ASCII lower-casing of one character; every other character is left as it is. */
  function ToLower(c: char): (d: char)
    ensures 'A' <= c <= 'Z' ==> 'a' <= d <= 'z' && d as int == c as int + 32
    ensures !('A' <= c <= 'Z') ==> d == c
  {
    if 'A' <= c <= 'Z' then (c as int + 32) as char else c
  }
}
