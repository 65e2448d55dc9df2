/** The saturating test whether a session table spans enough identifiers. */
module SessionSpace {
  newtype uint64 = n: int | 0 <= n < 0x1_0000_0000_0000_0000

  const REQUIRED: uint64 := 0x8000_0000

  /** How many characters a table stands for: named alphabets, or the table itself. */
  function SizeOf(table: string): nat {
    if table == "ALPHABET" || table == "alphabet" then 26
    else if table == "Alphabet" then 52
    else if table == "BASE36" || table == "base36" then 36
    else if table == "Base62" then 62
    else if table == "HEX" || table == "hex" then 16
    else if table == "number" then 10
    else |table|
  }

  const UPPER := "ABCDEFGHIJKLMNOPQRSTUVWXYZ"
  const LOWER := "abcdefghijklmnopqrstuvwxyz"
  const DIGITS := "0123456789"

  /** The characters of a table; a table without a name of its own is its characters. */
  function Alphabet(table: string): string {
    match table
    case "ALPHABET" => UPPER
    case "alphabet" => LOWER
    case "Alphabet" => UPPER + LOWER
    case "BASE36" => DIGITS + UPPER
    case "base36" => DIGITS + LOWER
    case "Base62" => DIGITS + UPPER + LOWER
    case "HEX" => DIGITS + "ABCDEF"
    case "hex" => DIGITS + "abcdef"
    case "number" => DIGITS
    case _ => table
  }

  lemma SizeIsAlphabet(table: string)
    ensures SizeOf(table) == |Alphabet(table)|
  {
  }

  function Pow(size: nat, k: nat): nat {
    if k == 0 then 1 else size * Pow(size, k - 1)
  }

  /** How many identifiers there are with a length from `from` to `to`. */
  function Space(size: nat, from: nat, to: nat): nat {
    if to < from then 0 else if to == 0 then 1 else Space(size, from, to - 1) + Pow(size, to)
  }

  lemma {:induction false} PowGrows(size: nat, k: nat)
    requires size >= 1
    ensures 1 <= Pow(size, k) <= Pow(size, k + 1)
  {
    if k > 0 { PowGrows(size, k - 1); }
    Product(size, Pow(size, k));
  }

  lemma Product(a: nat, b: nat)
    requires a >= 1
    ensures b <= a * b
  {
  }

  /** The exact power, or the bound once it is reached. */
  function Capped(size: nat, k: nat): nat {
    if Pow(size, k) >= REQUIRED as nat then REQUIRED as nat else Pow(size, k)
  }

  /** Dividing first decides without overflow whether the next power reaches the bound. */
  lemma NextPower(size: nat, power: nat, bound: nat)
    requires size >= 1 && 1 <= power <= bound
    ensures power >= bound / size + 1 ==> power * size > bound
    ensures power < bound / size + 1 ==> power * size <= bound
  {
    var q := bound / size;
    assert bound == q * size + bound % size;
    if power >= q + 1 {
      Ordered(q + 1, power, size);
    } else {
      Ordered(power, q, size);
    }
  }

  lemma CappedNext(size: nat, k: nat)
    requires size >= 1 && k >= 1
    ensures Pow(size, k) == size * Pow(size, k - 1) && Pow(size, k - 1) <= Pow(size, k)
  {
  }

  /** The next capped power, computed without overflow. */
  method Raise(size: uint64, power: uint64, ghost k: nat) returns (next: uint64)
    requires size >= 1 && k >= 1 && power as nat == Capped(size as nat, k - 1) && 1 <= power <= REQUIRED
    ensures next as nat == Capped(size as nat, k) && 1 <= next <= REQUIRED
  {
    CappedNext(size as nat, k);
    NextPower(size as nat, power as nat, REQUIRED as nat);
    hide Pow;
    if power >= REQUIRED / size + 1 {
      next := REQUIRED;
    } else {
      next := power * size;
      if next > REQUIRED { next := REQUIRED; }
    }
  }

  lemma Ordered(a: nat, b: nat, c: nat)
    requires a <= b
    ensures a * c <= b * c
  {
  }

  lemma {:induction false} SpaceGrows(size: nat, from: nat, k: nat, to: nat)
    requires k <= to
    ensures Space(size, from, k) <= Space(size, from, to)
  {
    if k < to { SpaceGrows(size, from, k, to - 1); }
  }

  /** True exactly when the lengths from..to allow 2^31 identifiers; no step leaves the unsigned 64-bit range. */
  method ValidSessionSpace(table: string, from: nat, to: nat) returns (valid: bool)
    requires table != "" && |table| < 0x1_0000_0000_0000_0000 && 1 <= from <= to
    ensures valid <==> Space(SizeOf(table), from, to) >= 0x8000_0000
  {
    var size: uint64 := SizeOf(table) as uint64;
    ghost var n := SizeOf(table);
    var power: uint64, sum: uint64 := 1, 0;
    var k := 1;
    while k <= to
      invariant 1 <= k <= to + 1
      invariant power as nat == Capped(n, k - 1) && 1 <= power <= REQUIRED
      invariant sum < REQUIRED && sum as nat == Space(n, from, k - 1)
    {
      power := Raise(size, power, k);
      if k >= from {
        sum := sum + power;
        if sum >= REQUIRED {
          SpaceGrows(n, from, k, to);
          return true;
        }
      }
      k := k + 1;
    }
    valid := false;
  }
}
