// Names of the pod-local evidence token Secrets: the rotation counter is
// written into the Secret name and parsed back out of it.
module TokenNames {
  import opened Text

  const MAX_NAME: nat := 63
  const TRUNCATED_STEM: nat := 54
  const INFIX := "-pgconsole"
  const SUFFIX := "-evidence-t"

  // The eight hexadecimal digits a truncated name ends with. SHA-256 itself is
  // not modelled: every result below holds for any digest.
  predicate IsShortDigest(digest: string) {
    |digest| == 8 && forall i | 0 <= i < 8 :: IsDigit(digest[i]) || 'a' <= digest[i] <= 'f'
  }

  function BoundedName(base: string, suffix: string, digest: string): string {
    var full := base + suffix;
    if |full| <= MAX_NAME then full else full[..TRUNCATED_STEM] + "-" + digest
  }

  function ResourceName(instance: string, suffix: string, digest: string): string {
    BoundedName(instance, INFIX + suffix, digest)
  }

  function SecretName(console: string, generation: int, digest: string): string {
    ResourceName(console, SUFFIX + Itoa(generation), digest)
  }

  predicate MatchesAt(s: string, sub: string, i: int) {
    0 <= i && i + |sub| <= |s| && s[i..i + |sub|] == sub
  }

  // strings.LastIndex: the search walks down from the last possible start.
  function LastIndexFrom(s: string, sub: string, i: int): (index: int)
    ensures index == -1 || (index <= i && MatchesAt(s, sub, index))
    ensures forall j | index < j <= i :: !MatchesAt(s, sub, j)
    decreases i + 1
  {
    if i < 0 then -1
    else if MatchesAt(s, sub, i) then i
    else LastIndexFrom(s, sub, i - 1)
  }

  function LastIndex(s: string, sub: string): int {
    LastIndexFrom(s, sub, |s|)
  }

  function TokenGeneration(name: string): int {
    var index := LastIndex(name, SUFFIX);
    if index < 0 then 0
    else
      match Atoi(name[index + |SUFFIX|..])
      case Some(g) => if g < 1 then 0 else g
      case None => 0
  }

  function FullName(console: string, generation: int): string {
    console + (INFIX + (SUFFIX + Itoa(generation)))
  }

  lemma MatchedChar(s: string, sub: string, i: int, k: nat)
    requires MatchesAt(s, sub, i) && k < |sub|
    ensures s[i + k] == sub[k]
  {
    assert s[i + k] == s[i..i + |sub|][k];
  }

  // Behind the first character of a suffix occurrence, a '-' followed by 'e'
  // can be found neither in the suffix nor in the digits.
  lemma NoLaterSuffix(name: string, at: nat, digits: string, j: int)
    requires at + |SUFFIX| + |digits| == |name| && MatchesAt(name, SUFFIX, at)
    requires name[at + |SUFFIX|..] == digits && AllDigits(digits)
    requires at < j
    ensures !MatchesAt(name, SUFFIX, j)
  {
    if j + |SUFFIX| <= |name| {
      if j < at + |SUFFIX| {
        MatchedChar(name, SUFFIX, at, j - at);
        if j == at + 9 {
          MatchedChar(name, SUFFIX, at, 10);
          assert name[j + 1] == 't';
          assert name[j..j + |SUFFIX|][1] == 't';
        } else {
          assert name[j] != '-';
          assert name[j..j + |SUFFIX|][0] != '-';
        }
      } else {
        assert name[j] == digits[j - at - |SUFFIX|];
        assert name[j..j + |SUFFIX|][0] != '-';
      }
    }
  }

  // The last suffix of a full name is its own, even when the console's name
  // contains the suffix too.
  lemma LastSuffixOfFullName(console: string, generation: nat)
    ensures LastIndex(FullName(console, generation), SUFFIX) == |console| + |INFIX|
  {
    var name := FullName(console, generation);
    var at := |console| + |INFIX|;
    var digits := Itoa(generation);
    DigitsRoundTrip(generation);
    assert name == console + INFIX + SUFFIX + digits;
    assert name[at..at + |SUFFIX|] == SUFFIX;
    assert name[at + |SUFFIX|..] == digits;
    forall j | at < j ensures !MatchesAt(name, SUFFIX, j) {
      NoLaterSuffix(name, at, digits, j);
    }
    assert MatchesAt(name, SUFFIX, at);
  }

  // The counter survives the name, whatever the console is called, as long as
  // the name was not truncated.
  lemma FullNameRoundTrip(console: string, generation: int)
    requires 1 <= generation <= MAX_INT64
    ensures TokenGeneration(FullName(console, generation)) == generation
  {
    var name := FullName(console, generation);
    LastSuffixOfFullName(console, generation);
    assert name[|console| + |INFIX| + |SUFFIX|..] == Itoa(generation);
    AtoiItoa(generation);
  }

  // A '-' that is not the first character makes a string unparsable, and a
  // leading one makes it negative or zero.
  lemma DashIsNotPositive(s: string, at: nat)
    requires at < |s| && s[at] == '-'
    ensures Atoi(s) == None || Atoi(s).value < 1
  {
    if at > 0 {
      assert !AllDigits(s);
      assert s[1..][at - 1] == '-';
      assert !AllDigits(s[1..]);
    }
  }

  // No suffix reaches past the separator of a truncated name: the separator
  // would have to be its second '-', and the digest would have to start with 't'.
  lemma NoSuffixAcrossSeparator(name: string, i: int)
    requires |name| == MAX_NAME && name[TRUNCATED_STEM] == '-' && IsShortDigest(name[TRUNCATED_STEM + 1..])
    requires i + |SUFFIX| > TRUNCATED_STEM
    ensures !MatchesAt(name, SUFFIX, i)
  {
    if i + |SUFFIX| <= MAX_NAME {
      var k := TRUNCATED_STEM - i;
      assert k < |SUFFIX|;
      if k == 9 {
        assert name[TRUNCATED_STEM + 1] == name[TRUNCATED_STEM + 1..][0] != 't';
        assert name[i..i + |SUFFIX|][10] != SUFFIX[10];
      } else {
        assert name[i..i + |SUFFIX|][k] != SUFFIX[k];
      }
    }
  }

  // Hence the text after the last suffix of a truncated name contains the
  // separator, whatever the digest is.
  lemma TruncatedNameParsesToZero(full: string, digest: string)
    requires |full| > MAX_NAME && IsShortDigest(digest)
    ensures TokenGeneration(full[..TRUNCATED_STEM] + "-" + digest) == 0
  {
    var name := full[..TRUNCATED_STEM] + "-" + digest;
    var index := LastIndex(name, SUFFIX);
    if index >= 0 {
      assert name[TRUNCATED_STEM + 1..] == digest;
      var end := index + |SUFFIX|;
      if end <= TRUNCATED_STEM {
        assert name[end..][TRUNCATED_STEM - end] == '-';
        DashIsNotPositive(name[end..], TRUNCATED_STEM - end);
      } else {
        NoSuffixAcrossSeparator(name, index);
      }
    }
  }

  // The counter is recovered exactly when the full name fits the limit.
  lemma CounterIsRecoveredIffNameFits(console: string, generation: int, digest: string)
    requires 1 <= generation <= MAX_INT64 && IsShortDigest(digest)
    ensures TokenGeneration(SecretName(console, generation, digest)) == generation
            <==> |FullName(console, generation)| <= MAX_NAME
  {
    if |FullName(console, generation)| <= MAX_NAME {
      FullNameRoundTrip(console, generation);
    } else {
      TruncatedNameParsesToZero(FullName(console, generation), digest);
    }
  }

  // A generated name has at most 63 bytes. It is the instance name with its infix
  // and suffix when that fits, and otherwise the first 54 bytes of it with a
  // separator and the digest.
  lemma NameIsBounded(instance: string, suffix: string, digest: string)
    requires IsShortDigest(digest)
    ensures var name, full := ResourceName(instance, suffix, digest), instance + "-pgconsole" + suffix;
            && |name| <= 63
            && (|full| <= 63 ==> name == full)
            && (|full| > 63 ==> |name| == 63 && name[..54] == full[..54] && name[54] == '-' && name[55..] == digest)
  {
    assert instance + (INFIX + suffix) == instance + "-pgconsole" + suffix;
  }

  // The text of a token Secret's name.
  lemma SecretNameReads(console: string, generation: nat, digest: string)
    requires |console| + 21 + |Digits(generation)| <= 63
    ensures SecretName(console, generation, digest) == console + "-pgconsole-evidence-t" + Digits(generation)
  {
    assert console + (INFIX + (SUFFIX + Digits(generation))) == console + "-pgconsole-evidence-t" + Digits(generation);
  }

  predicate CarriesCounter(name: string, i: int, generation: int) {
    && 0 <= i && i + 11 <= |name| && name[i..i + 11] == "-evidence-t"
    && Atoi(name[i + 11..]) == Some(generation)
  }

  // A name gives a counter from 1 on, which is what its text after the last
  // separator says, or 0.
  lemma CounterIsReadOrZero(name: string)
    ensures TokenGeneration(name) >= 0
    ensures TokenGeneration(name) > 0 ==>
              exists i :: CarriesCounter(name, i, TokenGeneration(name))
  {
    if TokenGeneration(name) > 0 {
      assert CarriesCounter(name, LastIndex(name, SUFFIX), TokenGeneration(name));
    }
  }

  // Hence two generations of one console never share a Secret name.
  lemma GenerationsHaveDistinctNames(console: string, g: int, h: int, digest1: string, digest2: string)
    requires 1 <= g <= MAX_INT64 && 1 <= h <= MAX_INT64
    requires IsShortDigest(digest1) && IsShortDigest(digest2)
    requires |FullName(console, g)| <= MAX_NAME
    requires SecretName(console, g, digest1) == SecretName(console, h, digest2)
    ensures g == h
  {
    CounterIsRecoveredIffNameFits(console, g, digest1);
    CounterIsRecoveredIffNameFits(console, h, digest2);
    if |FullName(console, h)| > MAX_NAME {
      TruncatedNameParsesToZero(FullName(console, h), digest2);
    }
  }
}
