/**
  The ownership-tag printer and parser of apps/operator-cli/src/vultr_lifecycle.rs.
 */
module OwnershipTags {
  import opened Wrappers
  import opened Lifecycle
  import opened Sorting

  datatype AdapterError = InvalidOwnershipMetadata

  const TAG_PROJECT := "mobile-proxy:project="
  const TAG_MANAGER := "mobile-proxy:managed-by="
  const TAG_SCOPE := "mobile-proxy:scope="
  const TAG_INTENT := "mobile-proxy:intent="
  const TAG_GENERATION := "mobile-proxy:generation="

  // ---------------------------------------------------------------- decimal numbers

  function Digit(d: nat): char
    requires d < 10
  {
    '0' + d as char
  }

  function PrintDecimal(n: nat): (s: string)
    ensures s != "" && forall i | 0 <= i < |s| :: '0' <= s[i] <= '9'
  {
    if n < 10 then [Digit(n)] else PrintDecimal(n / 10) + [Digit(n % 10)]
  }

  predicate AllDigits(s: string) {
    forall i | 0 <= i < |s| :: '0' <= s[i] <= '9'
  }

  function DecimalValue(s: string): nat
    requires AllDigits(s)
  {
    if s == "" then 0 else 10 * DecimalValue(s[..|s| - 1]) + (s[|s| - 1] as int - '0' as int)
  }

  /** Rust's u64 parser: an optional plus sign, at least one digit, no overflow. */
  function ParseU64(s: string): Option<U64> {
    var digits := if |s| > 1 && s[0] == '+' then s[1..] else s;
    if digits == "" || !AllDigits(digits) || DecimalValue(digits) > U64_MAX then None else Some(DecimalValue(digits))
  }

  lemma {:induction false} PrintedValue(n: nat)
    ensures AllDigits(PrintDecimal(n)) && DecimalValue(PrintDecimal(n)) == n
  {
    var s := PrintDecimal(n);
    if n < 10 {
      assert s[..0] == "";
    } else {
      PrintedValue(n / 10);
      assert s[..|s| - 1] == PrintDecimal(n / 10);
    }
  }

  /** Every 64-bit number survives printing and parsing. */
  lemma DecimalRoundTrip(n: U64)
    ensures ParseU64(PrintDecimal(n)) == Some(n)
  {
    PrintedValue(n);
    assert PrintDecimal(n)[0] != '+';
  }

  lemma {:induction false} LeadingZero(s: string)
    requires AllDigits(s)
    ensures AllDigits("0" + s) && DecimalValue("0" + s) == DecimalValue(s)
  {
    var t := "0" + s;
    if s != "" {
      assert t[..|t| - 1] == "0" + s[..|s| - 1];
      LeadingZero(s[..|s| - 1]);
    } else {
      assert t[..0] == "";
    }
  }

  /** The number parser takes printed numbers up to 64 bits, also with a plus sign or a leading zero. */
  lemma ParserAccepts(n: nat)
    ensures ParseU64(PrintDecimal(n)) == if n <= U64_MAX then Some(n) else None
    ensures ParseU64("+" + PrintDecimal(n)) == ParseU64(PrintDecimal(n))
    ensures ParseU64("0" + PrintDecimal(n)) == ParseU64(PrintDecimal(n))
  {
    var p := PrintDecimal(n);
    PrintedValue(n);
    LeadingZero(p);
    SignedText(p);
    UnsignedText(p);
    UnsignedText("0" + p);
  }

  lemma SignedText(p: string)
    requires p != "" && AllDigits(p)
    ensures ParseU64("+" + p) == if DecimalValue(p) > U64_MAX then None else Some(DecimalValue(p))
  {
    assert ("+" + p)[1..] == p;
  }

  lemma UnsignedText(p: string)
    requires p != "" && AllDigits(p)
    ensures ParseU64(p) == if DecimalValue(p) > U64_MAX then None else Some(DecimalValue(p))
  {
    assert p[0] != '+';
  }

  /** It takes no empty text, no lone sign, and nothing but digits behind the first character. */
  lemma ParserRefuses(s: string)
    ensures s == "" || s == "+" ==> ParseU64(s) == None
    ensures (exists i :: 1 <= i < |s| && !('0' <= s[i] <= '9')) ==> ParseU64(s) == None
    ensures s != "" && s[0] != '+' && !('0' <= s[0] <= '9') ==> ParseU64(s) == None
  {
    if i :| 1 <= i < |s| && !('0' <= s[i] <= '9') {
      assert s[1..][i - 1] == s[i];
    }
  }

  // ---------------------------------------------------------------- tags

  function ScopeText(scope: LifecycleScope): string {
    match scope
    case Acceptance => "acceptance"
    case Production => "production"
  }

  /** The five labels of an ownership tag set. */
  datatype Label = ProjectTag | ManagerTag | ScopeTag | IntentTag | GenerationTag

  function Prefix(which: Label): string {
    match which
    case ProjectTag => TAG_PROJECT
    case ManagerTag => TAG_MANAGER
    case ScopeTag => TAG_SCOPE
    case IntentTag => TAG_INTENT
    case GenerationTag => TAG_GENERATION
  }

  /** The text a metadata value carries behind a label. */
  function Field(m: OwnershipMetadata, which: Label): string {
    match which
    case ProjectTag => m.project
    case ManagerTag => m.managedBy
    case ScopeTag => ScopeText(m.scope)
    case IntentTag => m.intentId
    case GenerationTag => PrintDecimal(m.generation)
  }

  function EncodeOwnership(m: OwnershipMetadata): seq<string> {
    [Prefix(ProjectTag) + Field(m, ProjectTag),
     Prefix(ManagerTag) + Field(m, ManagerTag),
     Prefix(ScopeTag) + Field(m, ScopeTag),
     Prefix(IntentTag) + Field(m, IntentTag),
     Prefix(GenerationTag) + Field(m, GenerationTag)]
  }

  /** The tags as the provider stores them. */
  lemma EncodedTags(m: OwnershipMetadata)
    ensures EncodeOwnership(m) ==
      ["mobile-proxy:project=" + m.project,
       "mobile-proxy:managed-by=" + m.managedBy,
       "mobile-proxy:scope=" + (if m.scope == Acceptance then "acceptance" else "production"),
       "mobile-proxy:intent=" + m.intentId,
       "mobile-proxy:generation=" + PrintDecimal(m.generation)]
  {
  }

  /** The values behind a prefix, in tag order. */
  function Values(tags: seq<string>, prefix: string): seq<string> {
    if tags == [] then []
    else
      var n := |tags| - 1;
      Values(tags[..n], prefix) + if prefix <= tags[n] then [tags[n][|prefix|..]] else []
  }

  function ExactTagValue(tags: seq<string>, which: Label): Result<Option<string>, AdapterError> {
    var values := Values(tags, Prefix(which));
    if |values| > 1 then Err(InvalidOwnershipMetadata)
    else if |values| == 0 then Ok(None)
    else Ok(Some(values[0]))
  }

  function DecodeOwnership(tags: seq<string>): Result<OwnershipObservation, AdapterError> {
    Decode((which: Label) => ExactTagValue(tags, which))
  }

  /** The judgement on what is read behind each label. */
  function Decode(read: Label -> Result<Option<string>, AdapterError>): Result<OwnershipObservation, AdapterError> {
    var project :- read(ProjectTag);
    var managedBy :- read(ManagerTag);
    var scope :- read(ScopeTag);
    var intentId :- read(IntentTag);
    var generation :- read(GenerationTag);
    if project.None? && managedBy.None? && scope.None? && intentId.None? && generation.None? then Ok(Missing)
    else if project.None? || managedBy.None? || scope.None? || intentId.None? || generation.None? then Ok(Conflicting)
    else if scope.value != "acceptance" && scope.value != "production" then Ok(Conflicting)
    else
      var number := ParseU64(generation.value);
      if number.None? || number.value == 0 then Ok(Conflicting)
      else
        Ok(Exact(OwnershipMetadata(project.value, managedBy.value,
          if scope.value == "acceptance" then Acceptance else Production, intentId.value, number.value)))
  }

  // ---------------------------------------------------------------- classification

  /** How many tags carry a label. */
  function Carried(tags: seq<string>, which: Label): nat {
    |Values(tags, Prefix(which))|
  }

  /** Some of the labels are carried, once each, and some are not. */
  ghost predicate ProperSubset(tags: seq<string>) {
    && (forall l: Label :: Carried(tags, l) <= 1)
    && (exists l: Label :: Carried(tags, l) == 0)
    && (exists l: Label :: Carried(tags, l) == 1)
  }

  /** A text behind a label reads as that field of m; a generation has several spellings. */
  ghost predicate Reads(m: OwnershipMetadata, which: Label, text: string) {
    if which == GenerationTag then ParseU64(text) == Some(m.generation) else text == Field(m, which)
  }

  /** Every label is carried exactly once and its text reads as that field of m. */
  ghost predicate Describes(tags: seq<string>, m: OwnershipMetadata) {
    forall l: Label :: Carried(tags, l) == 1 && Reads(m, l, Values(tags, Prefix(l))[0])
  }

  lemma LabelRead(tags: seq<string>, which: Label)
    ensures ExactTagValue(tags, which) ==
      if Carried(tags, which) > 1 then Err(InvalidOwnershipMetadata)
      else if Carried(tags, which) == 0 then Ok(None)
      else Ok(Some(Values(tags, Prefix(which))[0]))
  {
  }

  predicate OneOfFive(l: Label) {
    l == ProjectTag || l == ManagerTag || l == ScopeTag || l == IntentTag || l == GenerationTag
  }

  lemma FiveLabels(read: Label -> Result<Option<string>, AdapterError>)
    ensures forall l: Label {:trigger read(l)} :: OneOfFive(l)
  {
    forall l: Label
      ensures OneOfFive(l)
    {
      match l
      case ProjectTag =>
      case ManagerTag =>
      case ScopeTag =>
      case IntentTag =>
      case GenerationTag =>
    }
  }

  lemma DecodeRefuses(read: Label -> Result<Option<string>, AdapterError>)
    ensures Decode(read).Err? <==> exists l: Label :: read(l).Err?
    ensures Decode(read) == Ok(Missing) <==> forall l: Label :: read(l) == Ok(None)
    ensures (forall l: Label :: read(l).Ok?) && (exists l: Label :: read(l) == Ok(None)) ==>
      Decode(read) in {Ok(Missing), Ok(Conflicting)}
  {
    FiveLabels(read);
  }

  lemma DecodesExactly(read: Label -> Result<Option<string>, AdapterError>, m: OwnershipMetadata)
    ensures Decode(read) == Ok(Exact(m)) <==>
      forall l: Label :: read(l).Ok? && read(l).value.Some? && Reads(m, l, read(l).value.value)
  {
    assert "acceptance"[0] != "production"[0];
    FiveLabels(read);
  }

  /**
    How tags are judged: a repeated label, and only that, is an error; no label at all is
    Missing; a proper non-empty subset is always Conflicting; and the result is Exact for
    exactly the metadata the tags describe.
   */
  lemma {:induction false} DecodeClassifies(tags: seq<string>, m: OwnershipMetadata)
    ensures DecodeOwnership(tags).Err? <==> exists l: Label :: Carried(tags, l) > 1
    ensures DecodeOwnership(tags) == Ok(Missing) <==> forall l: Label :: Carried(tags, l) == 0
    ensures ProperSubset(tags) ==> DecodeOwnership(tags) == Ok(Conflicting)
    ensures DecodeOwnership(tags) == Ok(Exact(m)) <==> Describes(tags, m)
  {
    var read := (which: Label) => ExactTagValue(tags, which);
    forall l: Label
      ensures read(l) == if Carried(tags, l) > 1 then Err(InvalidOwnershipMetadata)
                         else if Carried(tags, l) == 0 then Ok(None)
                         else Ok(Some(Values(tags, Prefix(l))[0]))
    {
      LabelRead(tags, l);
    }
    assert DecodeOwnership(tags) == Decode(read);
    DecodeRefuses(read);
    DecodesExactly(read, m);
  }

  // ---------------------------------------------------------------- round trip

  /** The five prefixes differ at position 13, so no tag carries two labels. */
  lemma PrefixesExclude(l: Label, l': Label, tag: string)
    requires Prefix(l) <= tag && Prefix(l') <= tag
    ensures l == l'
  {
    assert Prefix(l)[13] == tag[13] && Prefix(l')[13] == tag[13];
  }

  lemma {:induction false} ValuesConcat(a: seq<string>, b: seq<string>, prefix: string)
    ensures Values(a + b, prefix) == Values(a, prefix) + Values(b, prefix)
    decreases |b|
  {
    if b == [] {
      assert a + b == a;
    } else {
      var n := |b| - 1;
      assert (a + b)[..|a| + n] == a + b[..n];
      ValuesConcat(a, b[..n], prefix);
    }
  }

  /** The values behind a prefix do not depend on the order of the tags. */
  lemma {:induction false} ValuesPermute(a: seq<string>, b: seq<string>, prefix: string)
    requires multiset(a) == multiset(b)
    ensures multiset(Values(a, prefix)) == multiset(Values(b, prefix))
    decreases |a|
  {
    assert |a| == |multiset(a)| == |multiset(b)| == |b|;
    if a != [] {
      var n := |a| - 1;
      var last := a[n];
      assert last in multiset(b);
      var i :| 0 <= i < |b| && b[i] == last;
      RemovedMultiset(b, i);
      DropLast(a);
      ValuesPermute(a[..n], b[..i] + b[i + 1..], prefix);
      LiftedValue(b, i, prefix);
      LiftedValue(a, n, prefix);
      assert a[..n] + a[n + 1..] == a[..n];
    }
  }

  lemma RemovedMultiset(b: seq<string>, i: nat)
    requires i < |b|
    ensures multiset(b[..i] + b[i + 1..]) == multiset(b) - multiset{b[i]}
  {
    assert b == b[..i] + [b[i]] + b[i + 1..];
  }

  /** Taking one tag out takes out its value. */
  lemma {:induction false} LiftedValue(b: seq<string>, i: nat, prefix: string)
    requires i < |b|
    ensures multiset(Values(b, prefix))
         == multiset(Values(b[..i] + b[i + 1..], prefix)) + multiset(Values([b[i]], prefix))
  {
    assert b == b[..i] + [b[i]] + b[i + 1..];
    ValuesConcat(b[..i], b[i + 1..], prefix);
    ValuesConcat(b[..i] + [b[i]], b[i + 1..], prefix);
    ValuesConcat(b[..i], [b[i]], prefix);
  }

  ghost predicate Unrelated(tag: string) {
    forall l: Label :: !(Prefix(l) <= tag)
  }

  lemma {:induction false} UnrelatedValues(tags: seq<string>, which: Label)
    requires forall t | t in tags :: Unrelated(t)
    ensures Values(tags, Prefix(which)) == []
  {
    if tags != [] {
      UnrelatedValues(tags[..|tags| - 1], which);
      assert Unrelated(tags[|tags| - 1]);
    }
  }

  lemma {:induction false} TagValue(l: Label, text: string, which: Label)
    ensures Values([Prefix(l) + text], Prefix(which)) == if l == which then [text] else []
  {
    var tag := Prefix(l) + text;
    var none: seq<string> := [];
    assert [tag][..0] == none;
    assert Prefix(l) <= tag && tag[|Prefix(l)|..] == text;
    if Prefix(which) <= tag {
      PrefixesExclude(l, which, tag);
    }
  }

  lemma {:induction false} EncodedValues(m: OwnershipMetadata, which: Label)
    ensures Values(EncodeOwnership(m), Prefix(which)) == [Field(m, which)]
  {
    var p := Prefix(which);
    var a, b := [Prefix(ProjectTag) + Field(m, ProjectTag)], [Prefix(ManagerTag) + Field(m, ManagerTag)];
    var c := [Prefix(ScopeTag) + Field(m, ScopeTag)];
    var d, e := [Prefix(IntentTag) + Field(m, IntentTag)], [Prefix(GenerationTag) + Field(m, GenerationTag)];
    assert EncodeOwnership(m) == a + b + c + d + e;
    ValuesConcat(a + b + c + d, e, p);
    ValuesConcat(a + b + c, d, p);
    ValuesConcat(a + b, c, p);
    ValuesConcat(a, b, p);
    TagValue(ProjectTag, Field(m, ProjectTag), which);
    TagValue(ManagerTag, Field(m, ManagerTag), which);
    TagValue(ScopeTag, Field(m, ScopeTag), which);
    TagValue(IntentTag, Field(m, IntentTag), which);
    TagValue(GenerationTag, Field(m, GenerationTag), which);
  }

  lemma SingletonMultiset(s: seq<string>, x: string)
    requires multiset(s) == multiset([x])
    ensures s == [x]
  {
    assert |s| == |multiset(s)| == 1;
    assert s[0] in multiset([x]);
  }

  lemma {:induction false} FoundField(m: OwnershipMetadata, tags: seq<string>, noise: seq<string>, which: Label)
    requires multiset(tags) == multiset(EncodeOwnership(m) + noise)
    requires forall t | t in noise :: Unrelated(t)
    ensures Values(tags, Prefix(which)) == [Field(m, which)]
  {
    var encoded := EncodeOwnership(m);
    ValuesPermute(tags, encoded + noise, Prefix(which));
    ValuesConcat(encoded, noise, Prefix(which));
    EncodedValues(m, which);
    UnrelatedValues(noise, which);
    assert [Field(m, which)] + [] == [Field(m, which)];
    SingletonMultiset(Values(tags, Prefix(which)), Field(m, which));
  }

  /**
    Round trip: from any arrangement of the encoded tags, mixed with any tags that carry none
    of the five labels, decoding gives back exactly the encoded metadata.
   */
  lemma {:induction false} OwnershipRoundTrip(m: OwnershipMetadata, tags: seq<string>, noise: seq<string>)
    requires multiset(tags) == multiset(EncodeOwnership(m) + noise)
    requires forall t | t in noise :: Unrelated(t)
    ensures DecodeOwnership(tags) == Ok(Exact(m))
  {
    DecimalRoundTrip(m.generation);
    forall l: Label
      ensures Carried(tags, l) == 1 && Reads(m, l, Values(tags, Prefix(l))[0])
    {
      FoundField(m, tags, noise, l);
    }
    DecodeClassifies(tags, m);
  }
}
