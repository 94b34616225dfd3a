/** Octal escapes of mountpoints as the kernel's mount table writes them. */
module MountPaths {
  import opened Prelude
  import opened ByteOrder

  const BACKSLASH: byte := 92
  const ZERO: byte := 48

  datatype DecodeError = Truncated | InvalidEscape | InvalidOctet

  predicate Octal(b: byte)
  {
    ZERO <= b <= 55
  }

  /** The value of three octal digits; it may exceed a byte. */
  function Octet(a: byte, b: byte, c: byte): (v: int)
    requires Octal(a) && Octal(b) && Octal(c)
  {
    (a - ZERO) * 64 + (b - ZERO) * 8 + (c - ZERO)
  }

  function Decode(s: Text): Result<Text, DecodeError>
  {
    if s == [] then Ok([])
    else if s[0] != BACKSLASH then
      match Decode(s[1..])
      case Err(e) => Err(e)
      case Ok(rest) => Ok([s[0]] + rest)
    else if |s| < 4 then Err(Truncated)
    else if !(Octal(s[1]) && Octal(s[2]) && Octal(s[3])) then Err(InvalidEscape)
    else if Octet(s[1], s[2], s[3]) > 255 then Err(InvalidOctet)
    else
      match Decode(s[4..])
      case Err(e) => Err(e)
      case Ok(rest) => Ok([Octet(s[1], s[2], s[3]) as byte] + rest)
  }

  /** The text before `s` decoded to `out`: what is left decides the result. */
  function Resume(out: Text, rest: Result<Text, DecodeError>): Result<Text, DecodeError>
  {
    match rest
    case Err(e) => Err(e)
    case Ok(tail) => Ok(out + tail)
  }

  lemma ResumeStep(out: Text, b: byte, rest: Result<Text, DecodeError>)
    ensures Resume([], rest) == rest
    ensures Resume(out, Resume([b], rest)) == Resume(out + [b], rest)
  {
    if rest.Ok? {
      assert [] + rest.value == rest.value;
      assert out + ([b] + rest.value) == out + [b] + rest.value;
    }
  }

  method DecodeMountpoint(input: Text) returns (r: Result<Text, DecodeError>)
    ensures r == Decode(input)
  {
    var output: Text, index: nat := [], 0;
    assert input[0..] == input;
    ResumeStep([], 0, Decode(input));
    while index < |input|
      invariant index <= |input|
      invariant Decode(input) == Resume(output, Decode(input[index..]))
    {
      ghost var rest := input[index..];
      if input[index] == BACKSLASH {
        if index + 4 > |input| {
          return Err(Truncated);
        }
        var a, b, c := input[index + 1], input[index + 2], input[index + 3];
        if !(Octal(a) && Octal(b) && Octal(c)) {
          return Err(InvalidEscape);
        }
        var value := Octet(a, b, c);
        if value > 255 {
          return Err(InvalidOctet);
        }
        assert rest[4..] == input[index + 4..];
        ResumeStep(output, value as byte, Decode(rest[4..]));
        output := output + [value as byte];
        index := index + 4;
      } else {
        assert rest[1..] == input[index + 1..];
        ResumeStep(output, input[index], Decode(rest[1..]));
        output := output + [input[index]];
        index := index + 1;
      }
    }
    assert input[index..] == [] && output + [] == output;
    return Ok(output);
  }

  // ---- the inverse ----

  function Escape(b: byte): Text
  {
    [BACKSLASH, ZERO + b / 64, ZERO + b / 8 % 8, ZERO + b % 8]
  }

  /** Octal-escape the bytes in `escaped`, as the kernel does for its mount table. */
  function Encode(escaped: set<byte>, s: Text): Text
  {
    if s == [] then [] else (if s[0] in escaped then Escape(s[0]) else [s[0]]) + Encode(escaped, s[1..])
  }

  lemma OctetOfEscape(b: byte)
    ensures var e := Escape(b);
            |e| == 4 && e[0] == BACKSLASH && Octal(e[1]) && Octal(e[2]) && Octal(e[3]) && Octet(e[1], e[2], e[3]) == b
  {
  }

  /** Decoding undoes escaping for every byte string, whichever bytes are escaped besides the backslash. */
  lemma {:induction false} DecodeUndoesEncode(escaped: set<byte>, s: Text)
    requires BACKSLASH in escaped
    ensures Decode(Encode(escaped, s)) == Ok(s)
  {
    if s != [] {
      DecodeUndoesEncode(escaped, s[1..]);
      assert s == [s[0]] + s[1..];
      var tail := Encode(escaped, s[1..]);
      if s[0] in escaped {
        OctetOfEscape(s[0]);
        var e := Escape(s[0]) + tail;
        assert e[4..] == tail && e[1] == Escape(s[0])[1] && e[2] == Escape(s[0])[2] && e[3] == Escape(s[0])[3];
        assert Decode(e) == Ok([s[0]] + s[1..]);
      } else {
        assert ([s[0]] + tail)[1..] == tail;
      }
    }
  }

  /** Without the backslash among the escaped bytes decoding does not undo it: a literal backslash is misread. */
  lemma UnescapedBackslashIsMisread(escaped: set<byte>)
    requires BACKSLASH !in escaped
    ensures Decode(Encode(escaped, [BACKSLASH])) != Ok([BACKSLASH])
  {
    assert Encode(escaped, [BACKSLASH][1..]) == [];
  }
}
