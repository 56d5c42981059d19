/** Monotonic ULIDs: ten base-32 digits of time, sixteen of randomness that is incremented within a millisecond. */
module Ulid {
  import opened Wrappers
  import opened TextOrder

  newtype byte = x: int | 0 <= x < 256

  const ALPHABET := "0123456789ABCDEFGHJKMNPQRSTVWXYZ"

  // ----- numbers -----------------------------------------------------------------

  function Power(base: nat, n: nat): nat { if n == 0 then 1 else base * Power(base, n - 1) }

  /** The number that big-endian bytes stand for. */
  function Number(bytes: seq<byte>): nat {
    if bytes == [] then 0 else Number(bytes[..|bytes| - 1]) * 256 + bytes[|bytes| - 1] as nat
  }

  lemma {:induction false} NumberBound(bytes: seq<byte>)
    ensures Number(bytes) < Power(256, |bytes|)
  {
    if bytes != [] { NumberBound(bytes[..|bytes| - 1]); }
  }

  /** A run of full bytes turns over to zeros and carries one. */
  lemma {:induction false} Carry(front: seq<byte>, b: byte, k: nat)
    requires b < 255
    ensures Number(front + [b + 1] + seq(k, _ => 0)) == Number(front + [b] + seq(k, _ => 255)) + 1
  {
    var up, down := front + [b + 1] + seq(k, _ => 0), front + [b] + seq(k, _ => 255);
    if k == 0 {
      assert up[..|up| - 1] == front && down[..|down| - 1] == front;
    } else {
      Carry(front, b, k - 1);
      assert up[..|up| - 1] == front + [b + 1] + seq(k - 1, _ => 0);
      assert down[..|down| - 1] == front + [b] + seq(k - 1, _ => 255);
    }
  }

  // ----- digits ------------------------------------------------------------------

  /** The last n base-32 digits of a number. */
  function Encode(value: nat, n: nat): (s: string)
    ensures |s| == n
  {
    if n == 0 then "" else Encode(value / 32, n - 1) + [ALPHABET[value % 32]]
  }

  lemma {:induction false} AlphabetAscends(i: nat, j: nat)
    requires i < j < 32
    ensures ALPHABET[i] < ALPHABET[j]
    decreases j
  {
    if i + 1 < j { AlphabetAscends(i, j - 1); }
  }

  /** The 32 digits ascend, and are the decimal digits and the capital letters but I, L, O and U. */
  lemma {:induction false} AlphabetIs()
    ensures |ALPHABET| == 32 && forall i, j :: 0 <= i < j < 32 ==> ALPHABET[i] < ALPHABET[j]
    ensures forall i :: 0 <= i < 32 ==>
              ('0' <= ALPHABET[i] <= '9' || 'A' <= ALPHABET[i] <= 'Z') && ALPHABET[i] !in "ILOU"
  {
    forall i, j | 0 <= i < j < 32
      ensures ALPHABET[i] < ALPHABET[j]
    {
      AlphabetAscends(i, j);
    }
  }

  /** Appending keeps the order of texts of one length. */
  lemma {:induction false} AppendBelow(a: string, b: string, x: string, y: string)
    requires |a| == |b| && Below(a, b)
    ensures Below(a + x, b + y)
  {
    if a[0] == b[0] {
      AppendBelow(a[1..], b[1..], x, y);
      assert (a + x)[1..] == a[1..] + x && (b + y)[1..] == b[1..] + y;
    }
  }

  /** Fixed-width digits keep the order of numbers. */
  lemma {:induction false} EncodeAscends(v: nat, w: nat, n: nat)
    requires v < w < Power(32, n)
    ensures Below(Encode(v, n), Encode(w, n))
  {
    var a, b := Encode(v / 32, n - 1), Encode(w / 32, n - 1);
    if v / 32 < w / 32 {
      EncodeAscends(v / 32, w / 32, n - 1);
      AppendBelow(a, b, [ALPHABET[v % 32]], [ALPHABET[w % 32]]);
    } else {
      AlphabetAscends(v % 32, w % 32);
      SameStart(a, [ALPHABET[v % 32]], [ALPHABET[w % 32]]);
    }
  }

  /** Digits of a number with time first: later times, or greater randomness at one time, come later. */
  lemma {:induction false} UlidAscends(t: nat, r: nat, u: nat, s: nat)
    requires t < u < Power(32, 10) || (t == u && r < s < Power(32, 16))
    ensures Below(Encode(t, 10) + Encode(r, 16), Encode(u, 10) + Encode(s, 16))
  {
    if t < u {
      EncodeAscends(t, u, 10);
      AppendBelow(Encode(t, 10), Encode(u, 10), Encode(r, 16), Encode(s, 16));
    } else {
      EncodeAscends(r, s, 16);
      SameStart(Encode(t, 10), Encode(r, 16), Encode(s, 16));
    }
  }

  /** Ten bytes are sixteen digits, and 2^50 is ten. */
  lemma {:induction false} Widths()
    ensures Power(256, 10) == Power(32, 16) && Power(32, 10) == 0x4000000000000
  {
    assert Power(32, 5) == 33554432;
    assert Power(32, 10) == Power(32, 5) * Power(32, 5) by { PowerSum(32, 5, 5); }
    assert Power(32, 8) == 1099511627776 by { PowerSum(32, 4, 4); }
    assert Power(256, 5) == 1099511627776;
    PowerSum(32, 8, 8);
    PowerSum(256, 5, 5);
  }

  lemma {:induction false} PowerSum(base: nat, m: nat, n: nat)
    ensures Power(base, m + n) == Power(base, m) * Power(base, n)
  {
    if m > 0 {
      PowerSum(base, m - 1, n);
      assert base * (Power(base, m - 1) * Power(base, n)) == base * Power(base, m - 1) * Power(base, n);
    }
  }

  // ----- the generator -----------------------------------------------------------

  method EncodeDigits(number: nat, n: nat) returns (encoded: string)
    ensures encoded == Encode(number, n)
  {
    var value := number;
    encoded := "";
    for position := 0 to n
      invariant Encode(number, n) == Encode(value, n - position) + encoded
    {
      var c := ALPHABET[value % 32];
      assert Encode(value, n - position) == Encode(value / 32, n - position - 1) + [c];
      assert Encode(value / 32, n - position - 1) + [c] + encoded == Encode(value / 32, n - position - 1) + ([c] + encoded);
      encoded := [c] + encoded;
      value := value / 32;
    }
    assert Encode(value, 0) + encoded == encoded;
  }

  /** Add one to a copy of the bytes, or report that they are exhausted; they never wrap. */
  method IncrementRandom(random: array<byte>) returns (next: array<byte>, exhausted: bool)
    ensures fresh(next) && next.Length == random.Length
    ensures exhausted <==> forall i :: 0 <= i < random.Length ==> random[i] == 255
    ensures !exhausted ==> Number(next[..]) == Number(random[..]) + 1
  {
    next := new byte[random.Length](i requires 0 <= i < random.Length reads random => random[i]);
    var position := random.Length;
    while position > 0
      invariant 0 <= position <= random.Length
      invariant forall i :: 0 <= i < position ==> next[i] == random[i]
      invariant forall i :: position <= i < random.Length ==> next[i] == 0 && random[i] == 255
    {
      position := position - 1;
      if next[position] < 255 {
        next[position] := next[position] + 1;
        var k := random.Length - position - 1;
        Carry(random[..position], random[position], k);
        assert random[..] == random[..position] + [random[position]] + seq(k, _ => 255);
        assert next[..] == random[..position] + [random[position] + 1] + seq(k, _ => 0);
        return next, false;
      }
      next[position] := 0;
    }
    exhausted := true;
  }

  class Generator {
    var lastTimestamp: int
    var lastRandom: array<byte>
    /** All ids so far. */
    ghost var ids: seq<string>

    ghost predicate Valid()
      reads this, lastRandom
    {
      lastRandom.Length == 10 && Ascending(ids) && -1 <= lastTimestamp < 0x4000000000000 &&
      (lastTimestamp == -1 ==> ids == []) &&
      (ids != [] ==> ids[|ids| - 1] == Encode(lastTimestamp, 10) + Encode(Number(lastRandom[..]), 16))
    }

    constructor ()
      ensures Valid() && ids == []
    {
      lastTimestamp, ids := -1, [];
      lastRandom := new byte[10](_ => 0);
    }

    /** Move to the next time and randomness: both later than before, or a greater number at the same time. */
    method Advance(timestamp: nat, randomBytes: seq<byte>) returns (ok: bool)
      requires |randomBytes| == 10 && lastRandom.Length == 10
      modifies this`lastTimestamp, this`lastRandom
      ensures lastRandom.Length == 10 && (lastRandom == old(lastRandom) || fresh(lastRandom))
      ensures if timestamp > old(lastTimestamp) then ok && lastTimestamp == timestamp && lastRandom[..] == randomBytes
              else lastTimestamp == old(lastTimestamp) && (ok ==> Number(lastRandom[..]) == old(Number(lastRandom[..])) + 1)
      ensures !ok ==> lastRandom == old(lastRandom) && forall i :: 0 <= i < 10 ==> lastRandom[i] == 255
    {
      var normalized := if timestamp > lastTimestamp then timestamp else lastTimestamp;
      if normalized == lastTimestamp {
        var next, exhausted := IncrementRandom(lastRandom);
        if exhausted { return false; }
        lastRandom := next;
      } else {
        lastTimestamp := normalized;
        lastRandom := new byte[10](i requires 0 <= i < 10 => randomBytes[i]);
      }
      ok := true;
    }

    /** The current time and randomness as text. */
    method Render() returns (id: string)
      requires lastTimestamp >= 0
      ensures id == Encode(lastTimestamp, 10) + Encode(Number(lastRandom[..]), 16)
    {
      var time := EncodeDigits(lastTimestamp, 10);
      var number := NumberOf(lastRandom);
      var random := EncodeDigits(number, 16);
      id := time + random;
    }

    /**
     Create an id. Whatever the clock does, it comes after every id before it; when the randomness of one millisecond is
     used up, there is none.
     */
    method CreateUlid(timestamp: nat, randomBytes: seq<byte>) returns (id: Option<string>)
      requires Valid() && timestamp < 0x4000000000000 && |randomBytes| == 10
      modifies this
      ensures Valid()
      ensures id.Some? ==> ids == old(ids) + [id.value] && |id.value| == 26
      ensures id.None? ==> ids == old(ids) && timestamp <= old(lastTimestamp) &&
                           forall i :: 0 <= i < 10 ==> old(lastRandom[i]) == 255
      ensures lastTimestamp == if timestamp > old(lastTimestamp) then timestamp else old(lastTimestamp)
    {
      ghost var t, r := lastTimestamp, Number(lastRandom[..]);
      var ok := Advance(timestamp, randomBytes);
      if !ok { return None; }
      var next := Render();
      NumberBound(lastRandom[..]);
      NextId(ids, t, r, lastTimestamp, Number(lastRandom[..]));
      ids := ids + [next];
      id := Some(next);
    }
  }

  lemma {:induction false} AscendingMore(ids: seq<string>, id: string)
    requires Ascending(ids) && (ids != [] ==> Below(ids[|ids| - 1], id))
    ensures Ascending(ids + [id])
  {
    forall i | 0 <= i < |ids|
      ensures Below(ids[i], id)
    {
      if i < |ids| - 1 { Transitive(ids[i], ids[|ids| - 1], id); }
    }
  }

  /** An id of a later time, or of the same time and greater randomness, comes after all ids so far. */
  lemma {:induction false} NextId(ids: seq<string>, t: int, r: nat, u: nat, s: nat)
    requires Ascending(ids) && (ids != [] ==> t >= 0 && ids[|ids| - 1] == Encode(t, 10) + Encode(r, 16))
    requires t < u < 0x4000000000000 || (t == u && r < s)
    requires s < Power(256, 10)
    ensures Ascending(ids + [Encode(u, 10) + Encode(s, 16)])
  {
    Widths();
    if ids != [] { UlidAscends(t, r, u, s); }
    AscendingMore(ids, Encode(u, 10) + Encode(s, 16));
  }

  /** The hexadecimal reading of a buffer. */
  method NumberOf(bytes: array<byte>) returns (n: nat)
    ensures n == Number(bytes[..])
  {
    n := 0;
    for i := 0 to bytes.Length
      invariant n == Number(bytes[..i])
    {
      assert bytes[..i + 1][..i] == bytes[..i];
      n := n * 256 + bytes[i] as nat;
    }
    assert bytes[..bytes.Length] == bytes[..];
  }
}
