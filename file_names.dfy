/** File names as the sidebar builds them: the `.md` normalisation and the synthesised `Untitled-<n>.md`. */
module FileNames {

  const MdSuffix: string := ".md"
  /** The file the sidebar registers when no list has been persisted yet. */
  const DefaultFileName: string := "template.md"
  const UntitledPrefix: string := "Untitled-"

  /** `name.endsWith(".md")`. */
  predicate HasMdSuffix(name: string) {
    |name| >= |MdSuffix| && name[|name| - |MdSuffix|..] == MdSuffix
  }

  /** The rename target: the typed name if it already ends in `.md`, otherwise the typed name with `.md` appended. */
  function Normalized(name: string): (r: string)
    ensures HasMdSuffix(r)
    ensures HasMdSuffix(name) ==> r == name
    ensures !HasMdSuffix(name) ==> r == name + MdSuffix
  {
    if HasMdSuffix(name) then name else name + MdSuffix
  }

  /** Normalising a normalised name changes nothing. */
  lemma NormalizedIdempotent(name: string)
    ensures Normalized(Normalized(name)) == Normalized(name)
  {
  }

  /** A name that does not end in `.md` is always changed by normalisation, and only by a suffix. */
  lemma NormalizedChangesIff(name: string)
    ensures Normalized(name) == name <==> HasMdSuffix(name)
    ensures Normalized(name)[..|name|] == name
  {
  }

  /** The character of a decimal digit. */
  function DigitChar(d: nat): (c: char)
    requires d < 10
    ensures '0' <= c <= '9'
    ensures DigitValue(c) == d
  {
    ('0' as int + d) as char
  }

  /** The value of a decimal digit character (0 for any other character). */
  function DigitValue(c: char): nat {
    if '0' <= c <= '9' then c as int - '0' as int else 0
  }

  /** The decimal text of a number, as a template literal `${n}` writes a non-negative integer. */
  function Decimal(n: nat): (s: string)
    ensures |s| >= 1
    ensures forall i :: 0 <= i < |s| ==> '0' <= s[i] <= '9'
    ensures s[0] == '0' ==> n == 0
    decreases n
  {
    if n < 10 then [DigitChar(n)] else Decimal(n / 10) + [DigitChar(n % 10)]
  }

  /** The number a string of decimal digits denotes. */
  function ValueOf(s: string): nat {
    if s == [] then 0 else 10 * ValueOf(s[..|s| - 1]) + DigitValue(s[|s| - 1])
  }

  /** Reading back the decimal text of a number gives the number. */
  lemma {:induction false} DecimalRoundTrip(n: nat)
    ensures ValueOf(Decimal(n)) == n
    decreases n
  {
    if n >= 10 {
      var s := Decimal(n / 10);
      DecimalRoundTrip(n / 10);
      assert (s + [DigitChar(n % 10)])[..|s|] == s;
    }
  }

  /** Different numbers have different decimal texts. */
  lemma DecimalInjective(a: nat, b: nat)
    ensures Decimal(a) == Decimal(b) <==> a == b
  {
    DecimalRoundTrip(a);
    DecimalRoundTrip(b);
  }

  /** The name the create button synthesises for a list of length `n - 1`. */
  function UntitledName(n: nat): (r: string)
    ensures HasMdSuffix(r)
  {
    UntitledPrefix + Decimal(n) + MdSuffix
  }

  /** Different counts synthesise different names, and only they do. */
  lemma UntitledNameInjective(a: nat, b: nat)
    ensures UntitledName(a) == UntitledName(b) <==> a == b
  {
    if UntitledName(a) == UntitledName(b) {
      var ra, rb := UntitledName(a), UntitledName(b);
      assert Decimal(a) == ra[|UntitledPrefix|..|ra| - |MdSuffix|];
      assert Decimal(b) == rb[|UntitledPrefix|..|rb| - |MdSuffix|];
      DecimalInjective(a, b);
    }
  }
}
