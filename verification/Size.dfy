/** The bucket size parameter: a whole number of GiB, stored as bytes in an int64. */
module Size {
  import opened Text
  import opened Results

  const GIB: int := 1024 * 1024 * 1024
  const MAX_INT64: int := 0x7fff_ffff_ffff_ffff
  /** math.MaxInt64/gib: both operands are positive, so Go's quotient is the Euclidean one. */
  const MAX_GIB: int := MAX_INT64 / GIB

  datatype SizeError = NotAPositiveWholeNumber | TooLarge

  predicate AllDigits(s: string) {
    forall i | 0 <= i < |s| :: '0' <= s[i] <= '9'
  }

  /** The number a digit string denotes. */
  function Value(digits: string): nat
    requires AllDigits(digits)
  {
    if digits == "" then 0
    else Value(digits[..|digits| - 1]) * 10 + (digits[|digits| - 1] as int - '0' as int)
  }

  /** strconv.ParseInt(s, 10, 64); None stands for its syntax and range errors. */
  function ParseInt(s: string): Option<int> {
    if s == "" then None else
    var signed := s[0] == '+' || s[0] == '-';
    var digits := if signed then s[1..] else s;
    if digits == "" || !AllDigits(digits) then None else
    var value: int := Value(digits);
    if s[0] == '-' then
      if value > MAX_INT64 + 1 then None else Some(-value)
    else if value > MAX_INT64 then None else Some(value)
  }

  function StripUnit(s: string): string {
    if |s| >= 2 && Lower(s[|s| - 2..]) == "gi" then s[..|s| - 2] else s
  }

  /** parseBucketSize: the size in bytes. */
  function ParseBucketSize(raw: string): Result<int, SizeError> {
    match ParseInt(Trim(StripUnit(Trim(raw))))
    case None => Failure(NotAPositiveWholeNumber)
    case Some(size) =>
      if size <= 0 then Failure(NotAPositiveWholeNumber)
      else if size > MAX_GIB then Failure(TooLarge)
      else Success(size * GIB)
  }

  /** How an accepted parameter is put together. */
  datatype Spelling = Spelling(pad0: string, sign: string, digits: string, pad1: string, unit: string, pad2: string) {
    predicate Valid() {
      && AllSpace(pad0) && AllSpace(pad1) && AllSpace(pad2)
      && sign in {"", "+"}
      && digits != "" && AllDigits(digits)
      && (Lower(unit) == "gi" || (unit == "" && pad1 == ""))
    }

    function Number(): string {
      sign + digits
    }

    function Core(): string {
      Number() + (pad1 + unit)
    }

    function Text(): string {
      pad0 + Core() + pad2
    }
  }

  /** `raw` spells the whole number `n`. */
  ghost predicate Spells(raw: string, n: nat) {
    exists sp: Spelling :: sp.Valid() && sp.Text() == raw && Value(sp.digits) == n
  }

  lemma CoreIsTight(sp: Spelling)
    requires sp.Valid()
    ensures Tight(sp.Number()) && Tight(sp.Core())
  {
    var core := sp.Core();
    if sp.unit == "" {
      assert core == sp.Number();
    } else {
      assert core[|core| - 1] == sp.unit[1];
      assert LowerChar(sp.unit[1]) == Lower(sp.unit)[1] == 'i';
    }
  }

  lemma NoUnitToStrip(s: string)
    requires s != "" && '0' <= s[|s| - 1] <= '9'
    ensures StripUnit(s) == s
  {
    if |s| >= 2 {
      assert Lower(s[|s| - 2..])[1] == s[|s| - 1] != 'i';
    }
  }

  lemma UnitStripped(s: string, unit: string)
    requires Lower(unit) == "gi"
    ensures StripUnit(s + unit) == s
  {
    assert |unit| == |Lower(unit)| == 2;
    assert (s + unit)[|s|..] == unit && (s + unit)[..|s|] == s;
  }

  lemma StripUnitOfCore(sp: Spelling)
    requires sp.Valid()
    ensures StripUnit(sp.Core()) == sp.Number() + sp.pad1
  {
    if sp.unit == "" {
      assert sp.Core() == sp.Number() == sp.Number() + sp.pad1;
      NoUnitToStrip(sp.Core());
    } else {
      assert sp.Core() == sp.Number() + sp.pad1 + sp.unit;
      UnitStripped(sp.Number() + sp.pad1, sp.unit);
    }
  }

  /** Trimming and unit stripping leave the sign and the digits of a spelling. */
  lemma SpellingCore(sp: Spelling)
    requires sp.Valid()
    ensures Trim(StripUnit(Trim(sp.Text()))) == sp.Number()
  {
    CoreIsTight(sp);
    TrimStripsPadding(sp.pad0, sp.Core(), sp.pad2);
    StripUnitOfCore(sp);
    TrimStripsPadding("", sp.Number(), sp.pad1);
    assert "" + sp.Number() + sp.pad1 == sp.Number() + sp.pad1;
  }

  lemma ParseSignedDigits(sign: string, digits: string)
    requires sign in {"", "+"} && digits != "" && AllDigits(digits)
    ensures ParseInt(sign + digits) == if Value(digits) > MAX_INT64 then None else Some(Value(digits))
  {
    var s := sign + digits;
    if sign == "+" {
      assert s[1..] == digits;
    } else {
      assert s == digits;
    }
  }

  /** Every spelling of a number in range is accepted, with that many GiB. */
  lemma SpellingAccepted(sp: Spelling)
    requires sp.Valid()
    ensures ParseBucketSize(sp.Text()) ==
              if Value(sp.digits) == 0 || Value(sp.digits) > MAX_INT64 then Failure(NotAPositiveWholeNumber)
              else if Value(sp.digits) > MAX_GIB then Failure(TooLarge)
              else Success(Value(sp.digits) * GIB)
  {
    SpellingCore(sp);
    ParseSignedDigits(sp.sign, sp.digits);
  }

  /** A whole number ParseInt reads as positive is an optional plus sign and digits. */
  lemma PositiveIsDigits(s: string) returns (sign: string, digits: string)
    requires ParseInt(s).Some? && ParseInt(s).value > 0
    ensures sign in {"", "+"} && digits != "" && AllDigits(digits)
    ensures s == sign + digits && ParseInt(s) == Some(Value(digits))
  {
    sign := if s[0] == '+' then "+" else "";
    digits := if s[0] == '+' then s[1..] else s;
  }

  lemma PaddingIsNotTight(pad: string, s: string)
    requires pad != "" && AllSpace(pad)
    ensures !Tight(pad + s) && !Tight(s + pad)
  {
    assert (pad + s)[0] == pad[0];
    assert (s + pad)[|s + pad| - 1] == pad[|pad| - 1];
  }

  /** A tight text with its unit, and its number with the padding in between, is the core of a spelling. */
  lemma CoreOf(outer: string, unit: string, left: string, number: string, right: string)
    requires outer == left + number + right + unit && Tight(outer)
    requires number != "" && AllSpace(left) && AllSpace(right)
    ensures left == "" && (unit == "" ==> right == "")
    ensures outer == number + (right + unit)
  {
    assert outer == left + (number + right + unit);
    if left != "" {
      PaddingIsNotTight(left, number + right + unit);
    }
    assert unit == "" ==> outer == number + right;
    if unit == "" && right != "" {
      PaddingIsNotTight(right, number);
    }
  }

  lemma StripUnitSplits(s: string) returns (unit: string)
    ensures s == StripUnit(s) + unit && (unit == "" || Lower(unit) == "gi")
  {
    unit := s[|StripUnit(s)|..];
  }

  /** Putting back what trimming and unit stripping took off. */
  lemma Reassemble(raw: string, sign: string, digits: string) returns (sp: Spelling)
    requires sign in {"", "+"} && digits != "" && AllDigits(digits)
    requires Trim(StripUnit(Trim(raw))) == sign + digits
    ensures sp.Valid() && sp.Text() == raw && sp.digits == digits
  {
    var left, right := TrimSplits(raw);
    var unit := StripUnitSplits(Trim(raw));
    var innerLeft, innerRight := TrimSplits(StripUnit(Trim(raw)));
    CoreOf(Trim(raw), unit, innerLeft, sign + digits, innerRight);
    sp := Spelling(left, sign, digits, innerRight, unit, right);
  }

  /** Whatever is accepted is a spelling of a number in range. */
  lemma AcceptedIsSpelled(raw: string) returns (sp: Spelling)
    requires ParseBucketSize(raw).Success?
    ensures sp.Valid() && sp.Text() == raw
    ensures 1 <= Value(sp.digits) <= MAX_GIB && ParseBucketSize(raw) == Success(Value(sp.digits) * GIB)
  {
    var sign, digits := PositiveIsDigits(Trim(StripUnit(Trim(raw))));
    sp := Reassemble(raw, sign, digits);
  }

  lemma SpelledIsAccepted(raw: string, n: nat)
    requires Spells(raw, n) && 1 <= n <= MAX_GIB
    ensures ParseBucketSize(raw) == Success(n * GIB)
  {
    var sp: Spelling :| sp.Valid() && sp.Text() == raw && Value(sp.digits) == n;
    SpellingAccepted(sp);
  }

  /** The bytes are a number of GiB in range that the parameter spells. */
  ghost predicate SpellsBytes(raw: string, bytes: int) {
    exists n: nat :: Spells(raw, n) && 1 <= n <= 8589934591 && bytes == n * 1073741824
  }

  lemma SpelledBytes(raw: string, n: nat)
    requires Spells(raw, n) && 1 <= n <= MAX_GIB
    ensures SpellsBytes(raw, n * GIB) && GIB <= n * GIB <= MAX_INT64
  {
  }

  lemma AcceptedSpellsBytes(raw: string, bytes: int)
    requires ParseBucketSize(raw) == Success(bytes)
    ensures SpellsBytes(raw, bytes) && GIB <= bytes <= MAX_INT64
  {
    var sp := AcceptedIsSpelled(raw);
    assert Spells(raw, Value(sp.digits));
    SpelledBytes(raw, Value(sp.digits));
  }

  /**
   The accepted strings are exactly the spellings of 1 .. floor((2^63-1)/2^30), each read as that many GiB, within an
   int64.
   */
  lemma ParserAcceptsExactly(raw: string, bytes: int)
    ensures ParseBucketSize(raw) == Success(bytes) <==> SpellsBytes(raw, bytes)
    ensures SpellsBytes(raw, bytes) ==> 1073741824 <= bytes < 0x8000_0000_0000_0000
  {
    if ParseBucketSize(raw) == Success(bytes) {
      AcceptedSpellsBytes(raw, bytes);
    }
    if SpellsBytes(raw, bytes) {
      var n: nat :| Spells(raw, n) && 1 <= n <= MAX_GIB && bytes == n * GIB;
      SpelledIsAccepted(raw, n);
      SpelledBytes(raw, n);
    }
  }

  /** A decimal printer. */
  function Decimal(n: nat): (s: string)
    ensures s != "" && AllDigits(s) && Value(s) == n
  {
    var digit := [(n % 10 + '0' as int) as char];
    if n < 10 then digit else Decimal(n / 10) + digit
  }

  lemma {:induction false} LeadingZeros(zeros: string, digits: string)
    requires AllDigits(zeros) && AllDigits(digits) && Value(zeros) == 0
    ensures Value(zeros + digits) == Value(digits)
  {
    if digits == "" {
      assert zeros + digits == zeros;
    } else {
      assert (zeros + digits)[..|zeros + digits| - 1] == zeros + digits[..|digits| - 1];
      LeadingZeros(zeros, digits[..|digits| - 1]);
    }
  }

  /** Parsing undoes printing, through padding, a plus sign, leading zeros and either form of the unit. */
  lemma ParseUndoesPrint(n: nat, zeros: string, sp: Spelling)
    requires 1 <= n <= MAX_GIB
    requires AllDigits(zeros) && Value(zeros) == 0
    requires sp.digits == zeros + Decimal(n) && sp.Valid()
    ensures ParseBucketSize(sp.Text()) == Success(n * GIB)
  {
    LeadingZeros(zeros, Decimal(n));
    assert Spells(sp.Text(), n);
    SpelledIsAccepted(sp.Text(), n);
  }

  /** Surrounding white space does not change how a parameter reads. */
  lemma TrimmedParsesTheSame(raw: string)
    ensures ParseBucketSize(Trim(raw)) == ParseBucketSize(raw)
  {
    TrimIdempotent(raw);
  }

  lemma PlainSpelling(digits: string) returns (sp: Spelling)
    requires digits != "" && AllDigits(digits)
    ensures sp.Valid() && sp.Text() == digits && sp.digits == digits
  {
    var none: string := "";
    sp := Spelling(none, none, digits, none, none, none);
    assert sp.Core() == digits;
  }

  /** A plain decimal is accepted. */
  lemma DecimalAccepted(n: nat)
    requires 1 <= n <= MAX_GIB
    ensures ParseBucketSize(Decimal(n)) == Success(n * GIB)
  {
    var sp := PlainSpelling(Decimal(n));
    assert Spells(Decimal(n), n);
    SpelledIsAccepted(Decimal(n), n);
  }

  lemma TrimOfTight(s: string)
    requires Tight(s)
    ensures Trim(s) == s
  {
  }
}
