/**
  utils.py: the slug generator behind every affiliate's public referral
  link, and the phone-number normaliser.

  `random.choices` is not called: the draws it would make are an input,
  one sequence of alphabet positions per attempt.
 */
module Utils {
  import opened Basics
  import opened Text
  import opened Models

  // ---------------------------------------------------------------------
  // generate_unique_slug
  // ---------------------------------------------------------------------

  /** The number of characters in `string.ascii_letters + string.digits`. */
  const AlphabetSize := 62

  /** Position `i` of `string.ascii_letters + string.digits`: a..z, then A..Z, then 0..9. */
  function AlphabetChar(i: nat): (c: char)
    requires i < AlphabetSize
    ensures IsAlnum(c)
    ensures i < 26 ==> IsLower(c)
    ensures 26 <= i < 52 ==> IsUpper(c)
    ensures 52 <= i ==> IsDigit(c)
  {
    if i < 26 then ('a' as int + i) as char
    else if i < 52 then ('A' as int + (i - 26)) as char
    else ('0' as int + (i - 52)) as char
  }

  /** Every letter and digit can be drawn, each at exactly one position. */
  lemma AlphabetIsLettersAndDigits(c: char)
    ensures IsAlnum(c) <==> exists i :: 0 <= i < AlphabetSize && AlphabetChar(i) == c
    ensures forall i, j :: 0 <= i < AlphabetSize && 0 <= j < AlphabetSize && AlphabetChar(i) == c && AlphabetChar(j) == c ==> i == j
  {
    if IsAlnum(c) {
      var i: nat := if IsLower(c) then c as int - 'a' as int
                    else if IsUpper(c) then c as int - 'A' as int + 26
                    else c as int - '0' as int + 52;
      assert AlphabetChar(i) == c;
    }
  }

  /** The slug one draw of `random.choices(characters, k=length)` spells; positions wrap around the alphabet. */
  function SlugOf(draw: seq<nat>): (slug: string)
    ensures |slug| == |draw|
    ensures forall i :: 0 <= i < |draw| ==> slug[i] == AlphabetChar(draw[i] % AlphabetSize)
  {
    seq(|draw|, i requires 0 <= i < |draw| => AlphabetChar(draw[i] % AlphabetSize))
  }

  /**
    `generate_unique_slug(length)`: the first drawn slug no affiliate holds.
    The source draws until it succeeds; here the draws are finite, and
    `None` means every one of them was already taken.
   */
  method GenerateUniqueSlug(db: Db, draws: seq<seq<nat>>, length: nat) returns (slug: Option<string>)
    requires forall k :: 0 <= k < |draws| ==> |draws[k]| == length
    ensures slug.Some? ==> !SlugTaken(db, slug.value) && |slug.value| == length
    ensures slug.Some? ==> forall i :: 0 <= i < |slug.value| ==> IsAlnum(slug.value[i])
    ensures slug.Some? ==>
              exists k :: 0 <= k < |draws| && slug.value == SlugOf(draws[k])
                          && forall j :: 0 <= j < k ==> SlugTaken(db, SlugOf(draws[j]))
    ensures slug.None? <==> forall k :: 0 <= k < |draws| ==> SlugTaken(db, SlugOf(draws[k]))
  {
    var k := 0;
    while k < |draws|
      invariant k <= |draws|
      invariant forall j :: 0 <= j < k ==> SlugTaken(db, SlugOf(draws[j]))
    {
      var candidate := SlugOf(draws[k]);
      var holder := FirstIndex(db.affiliates, (a: Affiliate) => a.slug == candidate);
      if holder.None? {
        return Some(candidate);
      }
      k := k + 1;
    }
    return None;
  }

  // ---------------------------------------------------------------------
  // format_phone_number
  // ---------------------------------------------------------------------

  /**
    `format_phone_number(phone)`: keep the digits, in order, behind a `+`.
    The source's `startswith('+')` test runs on a string that holds only
    digits, so it always adds the `+` (see `PlusTestNeverHolds`).
   */
  function FormatPhoneNumber(phone: string): (r: string)
    ensures |r| == Count(phone, IsDigit) + 1
    ensures r[0] == '+'
    ensures forall i :: 1 <= i < |r| ==> IsDigit(r[i]) && r[i] in phone
    ensures forall i :: 0 <= i < |phone| && IsDigit(phone[i]) ==> phone[i] in r
  {
    FilterMembership(phone, IsDigit);
    "+" + Filter(phone, IsDigit)
  }

  /** Only digits survive the filter, so the cleaned number never starts with `+`. */
  lemma PlusTestNeverHolds(phone: string)
    ensures var clean := Filter(phone, IsDigit); !(|clean| > 0 && clean[0] == '+')
  {
  }

  /** Filtering digits out of a string of digits keeps it whole. */
  lemma {:induction false} DigitsKept(s: string)
    requires forall i :: 0 <= i < |s| ==> IsDigit(s[i])
    ensures Filter(s, IsDigit) == s
  {
    if |s| > 0 {
      DigitsKept(s[1..]);
      assert s == [s[0]] + s[1..];
    }
  }

  /** A number that is already digits only just gets its `+`. */
  lemma FormatDigitsOnly(digits: string)
    requires forall i :: 0 <= i < |digits| ==> IsDigit(digits[i])
    ensures FormatPhoneNumber(digits) == "+" + digits
  {
    DigitsKept(digits);
  }

  /** Formatting a formatted number changes nothing. */
  lemma FormatPhoneIdempotent(phone: string)
    ensures FormatPhoneNumber(FormatPhoneNumber(phone)) == FormatPhoneNumber(phone)
  {
    var clean := Filter(phone, IsDigit);
    assert FormatPhoneNumber(phone) == "+" + clean;
    PlusThenDigits(clean);
  }

  /** The digits of `+` followed by digits are those digits. */
  lemma PlusThenDigits(digits: string)
    requires forall i :: 0 <= i < |digits| ==> IsDigit(digits[i])
    ensures Filter("+" + digits, IsDigit) == digits
  {
    var plus: string := "+";
    FilterAppend(plus, digits, IsDigit);
    assert Filter(plus, IsDigit) == [] + Filter(plus[1..], IsDigit);
    assert plus[1..] == [];
    DigitsKept(digits);
  }

  /** Spaces, dashes, brackets and a leading `+` make no difference: removing a non-digit gives the same number. */
  lemma FormatIgnoresSeparator(a: string, c: char, b: string)
    requires !IsDigit(c)
    ensures FormatPhoneNumber(a + [c] + b) == FormatPhoneNumber(a + b)
  {
    FilterAppend(a + [c], b, IsDigit);
    FilterAppend(a, [c], IsDigit);
    FilterAppend(a, b, IsDigit);
    assert Filter([c], IsDigit) == [];
  }
}
