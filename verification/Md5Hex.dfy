/** The signature as a string of hexadecimal digits, and back. */
module Md5Hex {
  import opened Wrappers
  import opened Md5Stream

  /** A character of "0123456789abcdef". */
  function HexChar(d: nat): char
    requires d < 16
  {
    if d < 10 then '0' + d as char else 'a' + (d - 10) as char
  }

  predicate IsHexChar(ch: char) {
    '0' <= ch <= '9' || 'a' <= ch <= 'f'
  }

  /** Where strchr finds the character in that string. */
  function HexIndex(ch: char): (d: nat)
    requires IsHexChar(ch)
    ensures d < 16 && HexChar(d) == ch
  {
    if ch <= '9' then ch as nat - '0' as nat else ch as nat - 'a' as nat + 10
  }

  lemma IndexOfChar(d: nat)
    requires d < 16
    ensures IsHexChar(HexChar(d)) && HexIndex(HexChar(d)) == d
  {
  }

  predicate IsHex(str: string) {
    forall k :: 0 <= k < |str| ==> IsHexChar(str[k])
  }

  function Hex(signature: seq<Byte>): (r: string)
    ensures |r| == 2 * |signature|
  {
    if signature == [] then ""
    else Digits(signature[0]) + Hex(signature[1..])
  }

  function Digits(b: Byte): (r: string)
    ensures |r| == 2
  {
    [HexChar(b / 16), HexChar(b % 16)]
  }

  function Unhex(str: string): (r: seq<Byte>)
    requires |str| % 2 == 0 && IsHex(str)
    ensures |r| == |str| / 2
  {
    if str == "" then []
    else [HexIndex(str[0]) * 16 + HexIndex(str[1])] + Unhex(str[2..])
  }

  /** The high digit of each byte comes first. */
  lemma {:induction false} HexAt(signature: seq<Byte>, k: nat)
    requires k < |signature|
    ensures var alphabet := "0123456789abcdef";
            && Hex(signature)[2 * k] == alphabet[signature[k] / 16]
            && Hex(signature)[2 * k + 1] == alphabet[signature[k] % 16]
  {
    if k == 0 {
      Alphabet(signature[0] / 16);
      Alphabet(signature[0] % 16);
    } else {
      HexAt(signature[1..], k - 1);
      assert Hex(signature)[2..] == Hex(signature[1..]);
    }
  }

  lemma Alphabet(d: nat)
    requires d < 16
    ensures HexChar(d) == "0123456789abcdef"[d]
  {
  }

  /** Reading back what was written gives the signature. */
  lemma {:induction false} UnhexOfHex(signature: seq<Byte>)
    ensures IsHex(Hex(signature)) && Unhex(Hex(signature)) == signature
  {
    if signature != [] {
      var rest := signature[1..];
      UnhexOfHex(rest);
      IndexOfChar(signature[0] / 16);
      IndexOfChar(signature[0] % 16);
      assert Hex(signature)[2..] == Hex(rest);
      assert forall k :: 2 <= k < |Hex(signature)| ==> Hex(signature)[k] == Hex(rest)[k - 2];
    }
  }

  /** And writing what was read gives the string. */
  lemma {:induction false} HexOfUnhex(str: string)
    requires |str| % 2 == 0 && IsHex(str)
    ensures Hex(Unhex(str)) == str
  {
    if str != "" {
      HexOfUnhex(str[2..]);
      HighAndLow(HexIndex(str[0]), HexIndex(str[1]));
      var u := Unhex(str);
      assert u[1..] == Unhex(str[2..]) && Digits(u[0]) == [str[0], str[1]];
      assert str == [str[0], str[1]] + str[2..];
    }
  }

  lemma HighAndLow(high: nat, low: nat)
    requires low < 16
    ensures (high * 16 + low) / 16 == high && (high * 16 + low) % 16 == low
  {
  }

  lemma {:induction false} HexOfConcat(x: seq<Byte>, y: seq<Byte>)
    ensures Hex(x + y) == Hex(x) + Hex(y)
  {
    if x == [] {
      assert x + y == y;
    } else {
      HexOfConcat(x[1..], y);
      assert (x + y)[1..] == x[1..] + y && (x + y)[0] == x[0];
      Regroup(Digits(x[0]), Hex(x[1..]), Hex(y));
    }
  }

  /** Writes two digits a byte while there is room, and a terminator if there is still room. */
  method SigToString(signature: seq<Byte>, length: nat) returns (str: string)
    requires |signature| == 16
    ensures var n := if length < 32 then length / 2 else 16;
            str == Hex(signature[..n]) + (if 2 * n < length then ['\0'] else [])
  {
    str := "";
    var k := 0;
    while k < 16
      invariant 0 <= k <= 16 && 2 * k <= length
      invariant str == Hex(signature[..k])
    {
      var high, low := signature[k] / 16, signature[k] % 16;
      if |str| + 1 >= length {
        break;
      }
      HexOfConcat(signature[..k], [signature[k]]);
      assert signature[..k] + [signature[k]] == signature[..k + 1];
      str := str + [HexChar(high)] + [HexChar(low)];
      k := k + 1;
    }
    if |str| < length {
      str := str + ['\0'];
    }
  }

  lemma UnhexNext(all: string, k: nat)
    requires k + 2 <= |all| && (|all| - k) % 2 == 0 && IsHex(all[k..])
    ensures IsHexChar(all[k]) && IsHexChar(all[k + 1]) && IsHex(all[k + 2..])
    ensures Unhex(all[k..]) == [HexIndex(all[k]) * 16 + HexIndex(all[k + 1])] + Unhex(all[k + 2..])
  {
    var rest := all[k..];
    assert rest[0] == all[k] && rest[1] == all[k + 1] && rest[2..] == all[k + 2..];
  }

  /** Reads the first 32 characters of a string, which are these. */
  method SigFromString(str: string) returns (signature: seq<Byte>)
    requires |str| == 32 && IsHex(str)
    ensures signature == Unhex(str)
  {
    signature := [];
    var k := 0;
    assert str[0..] == str;
    while k < 32
      invariant 0 <= k <= 32 && k % 2 == 0
      invariant IsRead(str, k, signature)
    {
      ReadMore(str, k, signature);
      var high := HexIndex(str[k]);
      var low := HexIndex(str[k + 1]);
      signature := signature + [high * 16 + low];
      k := k + 2;
    }
    assert Look(0);
  }

  /** The signature so far is what the first k characters stand for. */
  ghost predicate IsRead(str: string, k: nat, signature: seq<Byte>)
    requires |str| == 32 && k <= 32 && k % 2 == 0 && IsHex(str)
  {
    forall key {:trigger Look(key)} :: Look(key) ==> IsHex(str[k..]) && Unhex(str) == signature + Unhex(str[k..])
  }

  lemma ReadMore(str: string, k: nat, signature: seq<Byte>)
    requires |str| == 32 && k < 32 && k % 2 == 0 && IsHex(str) && IsRead(str, k, signature)
    ensures IsHexChar(str[k]) && IsHexChar(str[k + 1])
    ensures IsRead(str, k + 2, signature + [HexIndex(str[k]) * 16 + HexIndex(str[k + 1])])
  {
    assert Look(0);
    UnhexNext(str, k);
    Regroup(signature, [HexIndex(str[k]) * 16 + HexIndex(str[k + 1])], Unhex(str[k + 2..]));
  }
}
