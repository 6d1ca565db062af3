/**
 * The trap-code taxonomy: the twelve canonical reasons for which guest code
 * can trap, each with a stable numeric discriminant, a human-readable
 * message and a short textual tag that parses back to the code.
 */
module TrapCodes {

  import opened Wrappers

  /** A trap code describing the reason for a trap, in declaration order. */
  datatype TrapCode =
    | StackOverflow
    | HeapAccessOutOfBounds
    | HeapMisaligned
    | TableAccessOutOfBounds
    | OutOfBounds
    | IndirectCallToNull
    | BadSignature
    | IntegerOverflow
    | IntegerDivisionByZero
    | BadConversionToInteger
    | UnreachableCodeReached
    | UnalignedAtomic

  /** Number of trap codes; the taxonomy is closed. */
  const CodeCount: nat := 12

  /** The `repr(u32)` discriminant of each code. */
  function Discriminant(c: TrapCode): (n: nat)
    ensures n < CodeCount
  {
    match c
    case StackOverflow => 0
    case HeapAccessOutOfBounds => 1
    case HeapMisaligned => 2
    case TableAccessOutOfBounds => 3
    case OutOfBounds => 4
    case IndirectCallToNull => 5
    case BadSignature => 6
    case IntegerOverflow => 7
    case IntegerDivisionByZero => 8
    case BadConversionToInteger => 9
    case UnreachableCodeReached => 10
    case UnalignedAtomic => 11
  }

  /** Every code, in declaration order (the table the unit test iterates over). */
  const AllCodes: seq<TrapCode> := [
    StackOverflow,
    HeapAccessOutOfBounds,
    HeapMisaligned,
    TableAccessOutOfBounds,
    OutOfBounds,
    IndirectCallToNull,
    BadSignature,
    IntegerOverflow,
    IntegerDivisionByZero,
    BadConversionToInteger,
    UnreachableCodeReached,
    UnalignedAtomic
  ]

  /** The human-readable message of a code. */
  function Message(c: TrapCode): (m: string)
    ensures |m| > 0
  {
    match c
    case StackOverflow => "call stack exhausted"
    case HeapAccessOutOfBounds => "out of bounds memory access"
    case HeapMisaligned => "misaligned heap"
    case TableAccessOutOfBounds => "undefined element: out of bounds table access"
    case OutOfBounds => "out of bounds"
    case IndirectCallToNull => "uninitialized element"
    case BadSignature => "indirect call type mismatch"
    case IntegerOverflow => "integer overflow"
    case IntegerDivisionByZero => "integer divide by zero"
    case BadConversionToInteger => "invalid conversion to integer"
    case UnreachableCodeReached => "unreachable"
    case UnalignedAtomic => "unaligned atomic access"
  }

  /** The characters a tag is made of: lower-case ASCII letters and `_`. */
  predicate IsTagChar(ch: char) {
    ('a' <= ch <= 'z') || ch == '_'
  }

  /** The short tag written by `Display` for a code (its `to_string()`). */
  function Tag(c: TrapCode): (t: string)
    ensures |t| > 0
    ensures forall i :: 0 <= i < |t| ==> IsTagChar(t[i])
  {
    match c
    case StackOverflow => "stk_ovf"
    case HeapAccessOutOfBounds => "heap_get_oob"
    case HeapMisaligned => "heap_misaligned"
    case TableAccessOutOfBounds => "table_get_oob"
    case OutOfBounds => "oob"
    case IndirectCallToNull => "icall_null"
    case BadSignature => "bad_sig"
    case IntegerOverflow => "int_ovf"
    case IntegerDivisionByZero => "int_divz"
    case BadConversionToInteger => "bad_toint"
    case UnreachableCodeReached => "unreachable"
    case UnalignedAtomic => "unalign_atom"
  }

  /**
   * `FromStr`: the code whose tag is exactly `s`, or `None` (the source's
   * `Err(())`) for every other string.
   */
  function Parse(s: string): (r: Option<TrapCode>)
    ensures r.Some? ==> Tag(r.value) == s
  {
    if s == "stk_ovf" then Some(StackOverflow)
    else if s == "heap_get_oob" then Some(HeapAccessOutOfBounds)
    else if s == "heap_misaligned" then Some(HeapMisaligned)
    else if s == "table_get_oob" then Some(TableAccessOutOfBounds)
    else if s == "oob" then Some(OutOfBounds)
    else if s == "icall_null" then Some(IndirectCallToNull)
    else if s == "bad_sig" then Some(BadSignature)
    else if s == "int_ovf" then Some(IntegerOverflow)
    else if s == "int_divz" then Some(IntegerDivisionByZero)
    else if s == "bad_toint" then Some(BadConversionToInteger)
    else if s == "unreachable" then Some(UnreachableCodeReached)
    else if s == "unalign_atom" then Some(UnalignedAtomic)
    else None
  }

  // ---------------------------------------------------------------------
  // Discriminants

  /** The table lists every code once, at the index of its discriminant. */
  lemma AllCodesInDeclarationOrder()
    ensures |AllCodes| == CodeCount
    ensures forall i :: 0 <= i < |AllCodes| ==> Discriminant(AllCodes[i]) == i
    ensures forall c :: AllCodes[Discriminant(c)] == c
  {
  }

  /** Equality of codes is equality of discriminants (injectivity). */
  lemma DiscriminantInjective(a: TrapCode, b: TrapCode)
    ensures a == b <==> Discriminant(a) == Discriminant(b)
  {
    AllCodesInDeclarationOrder();
  }

  /** Every number below the code count is the discriminant of some code. */
  lemma DiscriminantOnto(n: nat)
    requires n < CodeCount
    ensures exists c :: Discriminant(c) == n
  {
    AllCodesInDeclarationOrder();
    assert Discriminant(AllCodes[n]) == n;
  }

  // ---------------------------------------------------------------------
  // Tags and parsing

  /** Parsing the display tag of a code gives back that code. */
  lemma ParseTag(c: TrapCode)
    ensures Parse(Tag(c)) == Some(c)
  {
  }

  /** A parse succeeds with `c` exactly when the input is `c`'s tag. */
  lemma ParseExact(s: string, c: TrapCode)
    ensures Parse(s) == Some(c) <==> s == Tag(c)
  {
    if s == Tag(c) {
      ParseTag(c);
    }
  }

  /** A parse succeeds exactly on the strings that are some code's tag. */
  lemma ParseSucceedsIffTag(s: string)
    ensures Parse(s).Some? <==> exists c :: Tag(c) == s
  {
    if Parse(s).Some? {
      assert Tag(Parse(s).value) == s;
    }
    forall c | Tag(c) == s
      ensures Parse(s).Some?
    {
      ParseTag(c);
    }
  }

  /** Tags are pairwise distinct. */
  lemma TagInjective(a: TrapCode, b: TrapCode)
    ensures Tag(a) == Tag(b) <==> a == b
  {
    ParseTag(a);
    ParseTag(b);
  }

  /** A tag followed by anything more is not a tag: there is no prefix matching. */
  lemma ParseRejectsExtendedTag(c: TrapCode, suffix: string)
    requires |suffix| > 0
    ensures Parse(Tag(c) + suffix) == None
  {
    var s := Tag(c) + suffix;
    // The first characters of s are those of Tag(c); naming them lets the
    // solver tell s apart from every other tag.
    assert s[0] == Tag(c)[0] && s[1] == Tag(c)[1] && s[2] == Tag(c)[2];
    if |Tag(c)| > 3 { assert s[3] == Tag(c)[3]; }
    if |Tag(c)| > 4 { assert s[4] == Tag(c)[4]; }
    if |Tag(c)| > 5 { assert s[5] == Tag(c)[5]; }
  }

  /** No tag is a proper prefix of another tag. */
  lemma TagsPrefixFree(a: TrapCode, b: TrapCode)
    requires a != b
    ensures !(Tag(a) <= Tag(b))
  {
    TagInjective(a, b);
    if Tag(a) <= Tag(b) {
      var suffix := Tag(b)[|Tag(a)|..];
      assert Tag(b) == Tag(a) + suffix;
      ParseRejectsExtendedTag(a, suffix);
      ParseTag(b);
    }
  }

  /**
   * A string holding any character outside the tag alphabet (an upper-case
   * letter, a digit, `-`, a space) is rejected: no case folding and no
   * numeric fallback.
   */
  lemma ParseRejectsForeignChar(s: string, i: nat)
    requires i < |s| && !IsTagChar(s[i])
    ensures Parse(s) == None
  {
  }

  /** The strings the unit test expects to be rejected. */
  lemma ParseRejectsTestStrings()
    ensures Parse("bogus") == None
    ensures Parse("user") == None
    ensures Parse("user-1") == None
    ensures Parse("users") == None
  {
  }

  // ---------------------------------------------------------------------
  // Messages

  /** Messages are pairwise distinct. */
  lemma MessageInjective(a: TrapCode, b: TrapCode)
    ensures Message(a) == Message(b) <==> a == b
  {
  }
}
