/** Deriving from a strategy the packets the kernel must queue, so that leaving every
    other packet in the kernel cannot be observed. */
module ScopeDerivation {
  import opened Wrappers
  import opened Selectors
  import opened Tcp

  // ---------------------------------------------------------------- triggers

  /** One trigger: its serialized form is `[protocol:field:value]`, or
      `[protocol:field:value:gas]` where gas is a rendered integer. */
  datatype Trigger = Trigger(protocol: string, field: string, value: string, gas: Option<string>)
  {
    function String(): string {
      "[" + protocol + ":" + field + ":" + value
      + (if gas.Some? then ":" + gas.value else "") + "]"
    }
  }

  /** A tree whose trigger is missing stands for both a nil tree and a nil trigger. */
  datatype Tree = Tree(trigger: Option<Trigger>, action: nat)

  /** A TCP packet as the steering layer sees it: the control flags, the NS bit that lives
      outside their octet, and everything else. */
  datatype Packet = Packet(flags: Flags, ns: bool, rest: seq<bv8>)

  function FlagBit(c: char): Option<bv8> {
    match c
    case 'F' => Some(0x01)
    case 'S' => Some(0x02)
    case 'R' => Some(0x04)
    case 'P' => Some(0x08)
    case 'A' => Some(0x10)
    case 'U' => Some(0x20)
    case 'E' => Some(0x40)
    case 'C' => Some(0x80)
    case _ => None
  }

  // ---------------------------------------------------------------- string helpers

  function TrimPrefix(s: string, p: string): string {
    if p <= s then s[|p|..] else s
  }

  predicate HasSuffix(s: string, p: string) {
    |p| <= |s| && s[|s| - |p|..] == p
  }

  function TrimSuffix(s: string, p: string): string {
    if HasSuffix(s, p) then s[..|s| - |p|] else s
  }

  /** Index of the first c in s, or |s|. */
  function Index(s: string, c: char): (i: nat)
    ensures i <= |s| && c !in s[..i] && (i < |s| ==> s[i] == c)
  {
    if s == [] || s[0] == c then 0
    else
      var i := Index(s[1..], c);
      assert s[..i + 1] == [s[0]] + s[1..][..i];
      i + 1
  }

  /** One past the index of the last c in s, or 0. */
  function AfterLast(s: string, c: char): (i: nat)
    ensures i <= |s| && c !in s[i..] && (i > 0 ==> s[i - 1] == c)
  {
    if s == [] then 0
    else if s[|s| - 1] == c then |s|
    else
      var i := AfterLast(s[..|s| - 1], c);
      assert s[i..] == s[..|s| - 1][i..] + [s[|s| - 1]];
      i
  }

  predicate Digits(s: string) {
    s != [] && forall k :: 0 <= k < |s| ==> '0' <= s[k] <= '9'
  }

  function DigitsValue(s: string): nat
    requires forall k :: 0 <= k < |s| ==> '0' <= s[k] <= '9'
  {
    if s == [] then 0
    else 10 * DigitsValue(s[..|s| - 1]) + (s[|s| - 1] as int - '0' as int)
  }

  /** strconv.Atoi succeeds: an optional sign, digits, within the 64-bit range. */
  predicate IsInteger(s: string) {
    if s != [] && s[0] == '-' then Digits(s[1..]) && DigitsValue(s[1..]) <= 0x8000_0000_0000_0000
    else if s != [] && s[0] == '+' then Digits(s[1..]) && DigitsValue(s[1..]) < 0x8000_0000_0000_0000
    else Digits(s) && DigitsValue(s) < 0x8000_0000_0000_0000
  }

  // ---------------------------------------------------------------- reading a trigger back

  function Unbracket(s: string): string {
    TrimSuffix(TrimPrefix(s, "["), "]")
  }

  /** What follows the second colon. */
  function AfterTwoColons(body: string): Option<string> {
    var i := Index(body, ':');
    if i == |body| then None
    else
      var tail := body[i + 1..];
      var j := Index(tail, ':');
      if j == |tail| then None else Some(tail[j + 1..])
  }

  /** Drops a trailing `:<integer>`. */
  function DropGas(value: string): string {
    var k := AfterLast(value, ':');
    if k > 0 && IsInteger(value[k..]) then value[..k - 1] else value
  }

  function TriggerValue(s: string): Option<string> {
    match AfterTwoColons(Unbracket(s))
    case None => None
    case Some(value) => Some(DropGas(value))
  }

  predicate ColonFree(s: string) {
    ':' !in s
  }

  /** A trigger written the way the library writes it: no colon inside a component. */
  ghost predicate WellWritten(t: Trigger) {
    && ColonFree(t.protocol) && ColonFree(t.field) && ColonFree(t.value)
    && (t.gas.Some? ==> IsInteger(t.gas.value))
  }

  lemma IntegersAreColonFree(s: string)
    requires IsInteger(s)
    ensures ColonFree(s)
  {
    if s[0] == '-' || s[0] == '+' {
      assert s == [s[0]] + s[1..];
    }
  }

  lemma FirstColon(a: string, b: string)
    requires ColonFree(a)
    ensures Index(a + ":" + b, ':') == |a|
  {
    var s := a + ":" + b;
    assert s[|a|] == ':' && s[..|a|] == a;
  }

  lemma LastColon(a: string, b: string)
    requires ColonFree(b)
    ensures AfterLast(a + ":" + b, ':') == |a| + 1
  {
    var s := a + ":" + b;
    assert s[|a|] == ':' && s[|a| + 1..] == b;
  }

  lemma UnbracketInverts(body: string)
    ensures Unbracket("[" + body + "]") == body
  {
    assert TrimPrefix("[" + body + "]", "[") == body + "]";
  }

  lemma AfterTwoColonsInverts(a: string, b: string, c: string)
    requires ColonFree(a) && ColonFree(b)
    ensures AfterTwoColons(a + ":" + (b + ":" + c)) == Some(c)
  {
    var tail := b + ":" + c;
    FirstColon(a, tail);
    assert (a + ":" + tail)[|a| + 1..] == tail;
    FirstColon(b, c);
    assert tail[|b| + 1..] == c;
  }

  lemma DropGasInverts(value: string, gas: string)
    requires ColonFree(value)
    ensures DropGas(value) == value
    ensures IsInteger(gas) ==> DropGas(value + ":" + gas) == value
  {
    assert AfterLast(value, ':') == 0;
    if IsInteger(gas) {
      IntegersAreColonFree(gas);
      LastColon(value, gas);
      var s := value + ":" + gas;
      assert s[|value| + 1..] == gas && s[..|value|] == value;
    }
  }

  /** The serialized form gives the value back, with or without gas. */
  lemma TriggerValueReadsBack(t: Trigger)
    requires WellWritten(t)
    ensures TriggerValue(t.String()) == Some(t.value)
  {
    var suffix := if t.gas.Some? then ":" + t.gas.value else "";
    var value := t.value + suffix;
    var body := t.protocol + ":" + (t.field + ":" + value);
    assert t.String() == "[" + body + "]";
    UnbracketInverts(body);
    AfterTwoColonsInverts(t.protocol, t.field, value);
    if t.gas.Some? {
      assert value == t.value + ":" + t.gas.value;
      DropGasInverts(t.value, t.gas.value);
    } else {
      assert value == t.value;
      DropGasInverts(t.value, "");
    }
  }

  // ---------------------------------------------------------------- flag letters

  /** The union of the letters' bits, or nothing if some letter is outside the flags byte. */
  function WantBits(letters: string): Option<bv8> {
    if letters == [] then Some(0)
    else
      match (WantBits(letters[..|letters| - 1]), FlagBit(letters[|letters| - 1]))
      case (Some(w), Some(b)) => Some(w | b)
      case _ => None
  }

  /** "These bits set, others free" with the wildcard; the whole flags byte without it. */
  function PatternMatch(wildcard: bool, want: bv8): FlagMatch {
    if wildcard then FlagMatch(want, want) else FlagMatch(0xff, want)
  }

  /** The match a flags value reduces to, or nothing if nftables cannot express it. */
  function FlagMatchOfValue(value: string): Option<FlagMatch> {
    var letters := TrimSuffix(value, "*");
    if letters == "" || WantBits(letters).None? then None
    else Some(PatternMatch(HasSuffix(value, "*"), WantBits(letters).value))
  }

  predicate IsFlagsTrigger(t: Trigger) {
    t.protocol == "TCP" && t.field == "flags"
  }

  /** The match a trigger reduces to, or nothing if nftables cannot express it. */
  function FlagMatchOf(t: Trigger): Option<FlagMatch> {
    if !IsFlagsTrigger(t) then None
    else
      var value := TriggerValue(t.String());
      if value.None? then None else FlagMatchOfValue(value.value)
  }

  method ReduceValue(value: string) returns (r: Option<FlagMatch>)
    ensures r == FlagMatchOfValue(value)
  {
    var letters := TrimSuffix(value, "*");
    if letters == "" {
      return None;
    }
    var want: bv8 := 0;
    var i := 0;
    while i < |letters|
      invariant 0 <= i <= |letters|
      invariant WantBits(letters[..i]) == Some(want)
    {
      assert letters[..i + 1][..i] == letters[..i];
      var bit := FlagBit(letters[i]);
      if bit.None? {
        UnknownLetterSpoils(letters, i);
        return None;
      }
      want := want | bit.value;
      i := i + 1;
    }
    assert letters[..i] == letters;
    return Some(PatternMatch(HasSuffix(value, "*"), want));
  }

  method ReduceTrigger(t: Trigger) returns (r: Option<FlagMatch>)
    ensures r == FlagMatchOf(t)
  {
    if t.protocol != "TCP" || t.field != "flags" {
      return None;
    }
    var value := TriggerValue(t.String());
    if value.None? {
      return None;
    }
    r := ReduceValue(value.value);
  }

  lemma {:induction false} UnknownLetterSpoils(letters: string, i: nat)
    requires i < |letters| && FlagBit(letters[i]).None?
    ensures WantBits(letters).None?
  {
    if i < |letters| - 1 {
      UnknownLetterSpoils(letters[..|letters| - 1], i);
    }
  }

  // ---------------------------------------------------------------- what a trigger matches

  predicate IsFlagLetter(c: char) {
    c == 'F' || c == 'S' || c == 'R' || c == 'P' || c == 'A' || c == 'U' || c == 'E' || c == 'C'
  }

  /** The header flag a letter stands for. */
  predicate Named(c: char, h: Flags) {
    match c
    case 'F' => h.fin
    case 'S' => h.syn
    case 'R' => h.rst
    case 'P' => h.psh
    case 'A' => h.ack
    case 'U' => h.urg
    case 'E' => h.ece
    case 'C' => h.cwr
    case _ => false
  }

  predicate EndsInStar(value: string) {
    |value| > 0 && value[|value| - 1] == '*'
  }

  function Letters(value: string): string {
    if EndsInStar(value) then value[..|value| - 1] else value
  }

  /** A plain set of flags, all in the flags octet. */
  predicate IsFlagSet(value: string) {
    Letters(value) != "" && forall c :: c in Letters(value) ==> IsFlagLetter(c)
  }

  /** Geneva's flags match: a trailing wildcard asks for the named flags and leaves the
      others free; without it the packet must have exactly the named ones. */
  ghost predicate ValueCovers(value: string, h: Flags, ns: bool) {
    if EndsInStar(value) then forall c :: c in Letters(value) ==> Named(c, h)
    else !ns && forall c :: IsFlagLetter(c) ==> (Named(c, h) <==> c in Letters(value))
  }

  /** Whether t's pattern covers p. Triggers that are not plain flag sets (payload or IP
      fields, the NS letter) match whatever `exotic` says. Gas is not consulted: a
      trigger out of gas fires less often than its pattern matches. */
  ghost predicate Covers(t: Trigger, p: Packet, exotic: (Trigger, Packet) -> bool) {
    if IsFlagsTrigger(t) && IsFlagSet(t.value) then ValueCovers(t.value, p.flags, p.ns) else exotic(t, p)
  }

  /** Exactly the flags some letters name. */
  function FlagsOf(letters: string): Flags {
    Flags('C' in letters, 'E' in letters, 'U' in letters, 'A' in letters,
          'P' in letters, 'R' in letters, 'S' in letters, 'F' in letters)
  }

  lemma OneFlag(c: char)
    requires IsFlagLetter(c)
    ensures FlagBit(c) == Some(Octet(FlagsOf([c])))
  {
  }

  lemma OneMoreFlag(letters: string, c: char)
    ensures FlagsOf(letters + [c]) == Both(FlagsOf(letters), FlagsOf([c]))
  {
    assert forall x :: x in letters + [c] <==> x in letters || x == c;
  }

  lemma OnlyLettersHaveBits(c: char)
    ensures FlagBit(c).Some? <==> IsFlagLetter(c)
  {
  }

  /** The letters' bits are the octet of the flags they name. */
  lemma {:induction false} WantedFlags(letters: string)
    ensures WantBits(letters).Some? <==> forall c :: c in letters ==> IsFlagLetter(c)
    ensures WantBits(letters).Some? ==> WantBits(letters).value == Octet(FlagsOf(letters))
  {
    if letters != [] {
      var n := |letters| - 1;
      assert letters == letters[..n] + [letters[n]];
      WantedFlags(letters[..n]);
      OnlyLettersHaveBits(letters[n]);
      if IsFlagLetter(letters[n]) {
        OneFlag(letters[n]);
        OneMoreFlag(letters[..n], letters[n]);
        OctetOfBoth(FlagsOf(letters[..n]), FlagsOf([letters[n]]));
      }
      hide FlagBit, FlagsOf, Octet, IsFlagLetter, Both;
    }
  }

  lemma NamedOf(letters: string, c: char)
    requires IsFlagLetter(c)
    ensures Named(c, FlagsOf(letters)) <==> c in letters
  {
  }

  lemma SameNames(h: Flags, g: Flags)
    requires forall c :: IsFlagLetter(c) ==> (Named(c, h) <==> Named(c, g))
    ensures h == g
  {
    assert IsFlagLetter('F') && IsFlagLetter('S') && IsFlagLetter('R') && IsFlagLetter('P');
    assert IsFlagLetter('A') && IsFlagLetter('U') && IsFlagLetter('E') && IsFlagLetter('C');
  }

  lemma AtLeastNamed(letters: string, h: Flags)
    requires forall c :: c in letters ==> IsFlagLetter(c)
    ensures AtLeast(h, FlagsOf(letters)) <==> forall c :: c in letters ==> Named(c, h)
  {
  }

  lemma ExactlyNamed(letters: string, h: Flags)
    ensures h == FlagsOf(letters) <==> forall c :: IsFlagLetter(c) ==> (Named(c, h) <==> c in letters)
  {
    hide *;
    forall c | IsFlagLetter(c)
      ensures Named(c, FlagsOf(letters)) <==> c in letters
    {
      NamedOf(letters, c);
    }
    if forall c :: IsFlagLetter(c) ==> (Named(c, h) <==> c in letters) {
      SameNames(h, FlagsOf(letters));
    }
  }

  /** The match selects exactly the octets with at least those flags, or with exactly those. */
  lemma PatternMatchIsExact(wildcard: bool, g: Flags, h: Flags)
    ensures Matches(PatternMatch(wildcard, Octet(g)), Octet(h)) <==> if wildcard then AtLeast(h, g) else h == g
  {
    if wildcard {
      MaskMeansAtLeast(h, g);
    } else {
      OctetReads(g);
      OctetReads(h);
      AllBits(Octet(h));
    }
    hide Octet, AtLeast, Read;
  }

  lemma AllBits(octet: bv8)
    ensures octet & 0xff == octet
  {
  }

  lemma WildcardIsStar(value: string)
    ensures HasSuffix(value, "*") == EndsInStar(value) && TrimSuffix(value, "*") == Letters(value)
  {
    if |value| > 0 {
      assert value[|value| - 1..] == [value[|value| - 1]];
    }
  }

  /** For every value: it reduces to a match exactly when it is a set of letters of the flags
      octet, and then the match selects an octet if and only if exactly the named header
      flags are set in it, or with the wildcard at least those. */
  lemma ReducedValueIsExact(value: string, h: Flags)
    ensures FlagMatchOfValue(value).Some? <==> IsFlagSet(value)
    ensures IsFlagSet(value) ==> (Matches(FlagMatchOfValue(value).value, Octet(h)) <==> ValueCovers(value, h, false))
  {
    WildcardIsStar(value);
    WantedFlags(Letters(value));
    if IsFlagSet(value) {
      PatternMatchIsExact(EndsInStar(value), FlagsOf(Letters(value)), h);
      AtLeastNamed(Letters(value), h);
      ExactlyNamed(Letters(value), h);
    }
    hide Octet, FlagsOf, AtLeast, Named, PatternMatch, IsFlagLetter, WantBits;
  }

  /** An expressible trigger's flag match selects every packet the trigger covers, and
      without the NS bit nothing more. */
  lemma ReducedTriggerIsExact(t: Trigger, p: Packet, exotic: (Trigger, Packet) -> bool)
    requires WellWritten(t) && FlagMatchOf(t).Some?
    ensures Covers(t, p, exotic) ==> Matches(FlagMatchOf(t).value, Octet(p.flags))
    ensures !p.ns && Matches(FlagMatchOf(t).value, Octet(p.flags)) ==> Covers(t, p, exotic)
  {
    TriggerValueReadsBack(t);
    ReducedValueIsExact(t.value, p.flags);
    hide Octet, TriggerValue, IsFlagSet, FlagMatchOfValue;
  }

  // ---------------------------------------------------------------- canonical flag lists

  /** Everything `narrow` matches, `broad` matches: it constrains only bits that narrow
      already fixes, to the same values. */
  predicate Subsumes(broad: FlagMatch, narrow: FlagMatch) {
    broad.mask & !narrow.mask == 0 && narrow.value & broad.mask == broad.value
  }

  lemma SubsumptionIsSound(broad: FlagMatch, narrow: FlagMatch, flags: bv8)
    requires Subsumes(broad, narrow) && Matches(narrow, flags)
    ensures Matches(broad, flags)
  {
    assert flags & broad.mask == (flags & narrow.mask) & broad.mask;
  }

  lemma SubsumptionIsTransitive(a: FlagMatch, b: FlagMatch, c: FlagMatch)
    requires Subsumes(a, b) && Subsumes(b, c)
    ensures Subsumes(a, c)
  {
    assert a.mask & !c.mask == 0;
    assert c.value & a.mask == (c.value & b.mask) & a.mask;
  }

  lemma SubsumptionIsAntisymmetric(a: FlagMatch, b: FlagMatch)
    requires Subsumes(a, b) && Subsumes(b, a)
    ensures a == b
  {
    assert a.mask == b.mask;
    assert a.value == b.value & a.mask && b.value == a.value & b.mask;
  }

  ghost predicate Maximal(m: FlagMatch, among: set<FlagMatch>) {
    m in among && forall b :: b in among && b != m ==> !Subsumes(b, m)
  }

  predicate Before(a: FlagMatch, b: FlagMatch) {
    a.mask < b.mask || (a.mask == b.mask && a.value < b.value)
  }

  predicate StrictlySorted(s: seq<FlagMatch>) {
    forall i, j :: 0 <= i < j < |s| ==> Before(s[i], s[j])
  }

  /** The canonical list of a set: its maximal elements, strictly sorted. */
  ghost predicate IsCanonical(out: seq<FlagMatch>, among: set<FlagMatch>) {
    StrictlySorted(out) && forall m :: m in out <==> Maximal(m, among)
  }

  /** Every element lies under a maximal one: dropping subsumed elements never empties a
      chain, because subsumption is a partial order on a finite set. */
  lemma {:induction false} MaximalAbove(m: FlagMatch, among: set<FlagMatch>) returns (top: FlagMatch)
    requires m in among
    ensures Maximal(top, among) && (top == m || Subsumes(top, m))
    decreases |among|
  {
    if b :| b in among && b != m && Subsumes(b, m) {
      var rest := among - {m};
      top := MaximalAbove(b, rest);
      if top != b {
        SubsumptionIsTransitive(top, b, m);
      }
      if Subsumes(m, top) {
        SubsumptionIsAntisymmetric(m, top);
        assert false;
      }
      assert forall c :: c in among && c != top && c != m ==> c in rest;
    } else {
      top := m;
    }
  }

  /** The canonical list matches exactly the flag bytes the whole set matches. */
  lemma CanonicalKeepsMeaning(out: seq<FlagMatch>, among: set<FlagMatch>, flags: bv8)
    requires IsCanonical(out, among)
    ensures (exists m :: m in out && Matches(m, flags)) <==> (exists m :: m in among && Matches(m, flags))
  {
    if m :| m in among && Matches(m, flags) {
      var top := MaximalAbove(m, among);
      if top != m {
        SubsumptionIsSound(top, m, flags);
      }
      assert top in out && Matches(top, flags);
    }
  }

  /** No element of a canonical list subsumes another. */
  lemma CanonicalIsAntichain(out: seq<FlagMatch>, among: set<FlagMatch>, i: nat, j: nat)
    requires IsCanonical(out, among) && i < |out| && j < |out| && i != j
    ensures !Subsumes(out[i], out[j])
  {
    assert out[i] in out && out[j] in out;
    if i < j {
      assert Before(out[i], out[j]);
    } else {
      assert Before(out[j], out[i]);
    }
    assert out[i] != out[j];
  }

  lemma BeforeIsStrict(a: FlagMatch, b: FlagMatch)
    requires Before(a, b)
    ensures a != b && !Before(b, a)
  {
  }

  lemma SortedHeadIsLeast(s: seq<FlagMatch>, m: FlagMatch)
    requires StrictlySorted(s) && m in s
    ensures m == s[0] || Before(s[0], m)
  {
    var i :| 0 <= i < |s| && s[i] == m;
    if i > 0 {
      assert Before(s[0], s[i]);
    }
  }

  lemma SameElementsSameEmptiness(s: seq<FlagMatch>, t: seq<FlagMatch>)
    requires forall m :: m in s <==> m in t
    ensures s == [] <==> t == []
  {
    if s != [] {
      assert s[0] in s;
    }
    if t != [] {
      assert t[0] in t;
    }
  }

  /** Two strictly sorted lists with the same elements are the same list, so the result
      depends on the input as a set: not on its order, repetitions or map iteration. */
  lemma {:induction false} SortedListsAreUnique(s: seq<FlagMatch>, t: seq<FlagMatch>)
    requires StrictlySorted(s) && StrictlySorted(t)
    requires forall m :: m in s <==> m in t
    ensures s == t
  {
    SameElementsSameEmptiness(s, t);
    if s == [] {
    } else {
      assert s[0] in t;
      assert t[0] in s;
      SortedHeadIsLeast(s, t[0]);
      SortedHeadIsLeast(t, s[0]);
      if s[0] != t[0] {
        BeforeIsStrict(s[0], t[0]);
        assert false;
      }
      TailDropsHead(s);
      TailDropsHead(t);
      SortedListsAreUnique(s[1..], t[1..]);
      assert s == [s[0]] + s[1..] && t == [t[0]] + t[1..];
    }
  }

  lemma TailDropsHead(s: seq<FlagMatch>)
    requires StrictlySorted(s) && s != []
    ensures StrictlySorted(s[1..])
    ensures forall m :: m in s[1..] <==> m in s && m != s[0]
  {
    forall m
      ensures m in s[1..] <==> m in s && m != s[0]
    {
      if m in s[1..] {
        var i :| 0 <= i < |s[1..]| && s[1..][i] == m;
        assert Before(s[0], s[i + 1]);
        BeforeIsStrict(s[0], s[i + 1]);
      }
      assert s == [s[0]] + s[1..];
    }
  }

  lemma CanonicalDependsOnTheSet(out1: seq<FlagMatch>, out2: seq<FlagMatch>, among: set<FlagMatch>)
    requires IsCanonical(out1, among) && IsCanonical(out2, among)
    ensures out1 == out2
  {
    SortedListsAreUnique(out1, out2);
  }

  lemma BeforeIsTransitive(a: FlagMatch, b: FlagMatch, c: FlagMatch)
    requires Before(a, b) && Before(b, c)
    ensures Before(a, c)
  {
  }

  lemma BeforeIsTotal(a: FlagMatch, b: FlagMatch)
    ensures a == b || Before(a, b) || Before(b, a)
  {
  }

  /** Puts a new element where it belongs: the insertion step of the final sort. */
  method InsertSorted(s: seq<FlagMatch>, m: FlagMatch) returns (r: seq<FlagMatch>)
    requires StrictlySorted(s) && m !in s
    ensures StrictlySorted(r)
    ensures forall x :: x in r <==> x in s || x == m
  {
    var i := 0;
    while i < |s| && Before(s[i], m)
      invariant 0 <= i <= |s|
      invariant forall k :: 0 <= k < i ==> Before(s[k], m)
    {
      i := i + 1;
    }
    r := s[..i] + [m] + s[i..];
    if i < |s| {
      BeforeIsTotal(s[i], m);
      assert s[i] in s;
      forall k | i <= k < |s|
        ensures Before(m, s[k])
      {
        if k > i {
          BeforeIsTransitive(m, s[i], s[k]);
        }
      }
    }
    assert s == s[..i] + s[i..];
  }

  method CanonicalFlags(input: seq<FlagMatch>) returns (out: seq<FlagMatch>)
    ensures IsCanonical(out, set m | m in input)
  {
    var unique := set m | m in input;
    out := [];
    var todo := unique;
    while todo != {}
      invariant todo <= unique
      invariant StrictlySorted(out)
      invariant forall m :: m in out <==> m in unique - todo && Maximal(m, unique)
      decreases |todo|
    {
      var candidate :| candidate in todo;
      var subsumed := false;
      var broader := unique;
      while broader != {} && !subsumed
        invariant broader <= unique
        invariant subsumed ==> !Maximal(candidate, unique)
        invariant !subsumed ==>
                    forall b :: b in unique - broader && b != candidate ==> !Subsumes(b, candidate)
        decreases |broader|
      {
        var b :| b in broader;
        broader := broader - {b};
        if b != candidate && Subsumes(b, candidate) {
          subsumed := true;
        }
      }
      todo := todo - {candidate};
      if !subsumed {
        assert Maximal(candidate, unique);
        out := InsertSorted(out, candidate);
      }
    }
  }

  // ---------------------------------------------------------------- selectors

  ghost predicate Expressible(tree: Tree) {
    tree.trigger.None? || FlagMatchOf(tree.trigger.value).Some?
  }

  ghost function MatchesOf(forest: seq<Tree>): set<FlagMatch> {
    set tree | tree in forest && tree.trigger.Some? && FlagMatchOf(tree.trigger.value).Some?
      :: FlagMatchOf(tree.trigger.value).value
  }

  /** The selector of a forest: everything as soon as one trigger cannot be expressed,
      otherwise the canonical list of the triggers' flag matches. */
  ghost predicate IsSelectorOf(sel: Selector, forest: seq<Tree>) {
    if forall tree :: tree in forest ==> Expressible(tree)
    then !sel.any && IsCanonical(sel.flags, MatchesOf(forest))
    else sel == EVERYTHING
  }

  lemma MatchesOfOneMore(forest: seq<Tree>, i: nat)
    requires i < |forest| && Expressible(forest[i])
    ensures MatchesOf(forest[..i + 1]) ==
            MatchesOf(forest[..i]) + (if forest[i].trigger.None? then {} else {FlagMatchOf(forest[i].trigger.value).value})
  {
    assert forall tree :: tree in forest[..i + 1] <==> tree in forest[..i] || tree == forest[i];
  }

  method SelectorOf(forest: seq<Tree>) returns (sel: Selector)
    ensures IsSelectorOf(sel, forest)
  {
    hide FlagMatchOf;
    var flags: seq<FlagMatch> := [];
    var i := 0;
    while i < |forest|
      invariant 0 <= i <= |forest|
      invariant forall k :: 0 <= k < i ==> Expressible(forest[k])
      invariant forall m :: m in flags <==> m in MatchesOf(forest[..i])
    {
      if forest[i].trigger.Some? {
        var m := ReduceTrigger(forest[i].trigger.value);
        if m.None? {
          assert forest[i] in forest && !Expressible(forest[i]);
          return EVERYTHING;
        }
        flags := flags + [m.value];
      }
      MatchesOfOneMore(forest, i);
      i := i + 1;
    }
    assert forest[..i] == forest;
    var canonical := CanonicalFlags(flags);
    assert (set m | m in flags) == MatchesOf(forest);
    return Selector(false, canonical);
  }

  /** Scope.Of for a parsed strategy. */
  method Of(outbound: seq<Tree>, inbound: seq<Tree>) returns (scope: Scope)
    ensures IsSelectorOf(scope.outbound, outbound) && IsSelectorOf(scope.inbound, inbound)
  {
    var o := SelectorOf(outbound);
    var i := SelectorOf(inbound);
    return Scope(o, i);
  }

  /** Only the triggers that are read back have to be well written. */
  ghost predicate WellWrittenForest(forest: seq<Tree>) {
    forall tree :: tree in forest && tree.trigger.Some? && IsFlagsTrigger(tree.trigger.value) ==>
      WellWritten(tree.trigger.value)
  }

  /** Some tree's pattern covers the packet. */
  ghost predicate Touches(forest: seq<Tree>, p: Packet, exotic: (Trigger, Packet) -> bool) {
    exists tree :: tree in forest && tree.trigger.Some? && Covers(tree.trigger.value, p, exotic)
  }

  /** A packet some trigger covers is always queued. */
  lemma SelectorIsNeverTooNarrow(sel: Selector, forest: seq<Tree>, p: Packet, exotic: (Trigger, Packet) -> bool)
    requires IsSelectorOf(sel, forest) && WellWrittenForest(forest)
    requires Touches(forest, p, exotic)
    ensures Selects(sel, Octet(p.flags))
  {
    if forall tree :: tree in forest ==> Expressible(tree) {
      var tree :| tree in forest && tree.trigger.Some? && Covers(tree.trigger.value, p, exotic);
      assert Expressible(tree);
      ReducedTriggerIsExact(tree.trigger.value, p, exotic);
      var m := FlagMatchOf(tree.trigger.value).value;
      assert m in MatchesOf(forest) && Matches(m, Octet(p.flags));
      CanonicalKeepsMeaning(sel.flags, MatchesOf(forest), Octet(p.flags));
    }
  }

  /** Nor does it queue too much: when every trigger is expressible and the packet has no
      NS bit, it is queued exactly when some trigger covers it. */
  lemma SelectorIsNeverTooWide(sel: Selector, forest: seq<Tree>, p: Packet, exotic: (Trigger, Packet) -> bool)
    requires IsSelectorOf(sel, forest) && WellWrittenForest(forest)
    requires forall tree :: tree in forest ==> Expressible(tree)
    requires !p.ns
    ensures Selects(sel, Octet(p.flags)) <==> Touches(forest, p, exotic)
  {
    if Selects(sel, Octet(p.flags)) {
      CanonicalKeepsMeaning(sel.flags, MatchesOf(forest), Octet(p.flags));
      var m :| m in MatchesOf(forest) && Matches(m, Octet(p.flags));
      var tree :| tree in forest && tree.trigger.Some? && FlagMatchOf(tree.trigger.value).Some?
                  && FlagMatchOf(tree.trigger.value).value == m;
      ReducedTriggerIsExact(tree.trigger.value, p, exotic);
    } else if Touches(forest, p, exotic) {
      SelectorIsNeverTooNarrow(sel, forest, p, exotic);
    }
  }

  /** An idle scope is exactly a strategy without a single trigger. */
  lemma IdleMeansNoTriggers(scope: Scope, outbound: seq<Tree>, inbound: seq<Tree>)
    requires IsSelectorOf(scope.outbound, outbound) && IsSelectorOf(scope.inbound, inbound)
    ensures scope.Idle() <==> forall tree :: tree in outbound + inbound ==> tree.trigger.None?
  {
    EmptyMeansNoTriggers(scope.outbound, outbound);
    EmptyMeansNoTriggers(scope.inbound, inbound);
    assert forall tree :: tree in outbound + inbound <==> tree in outbound || tree in inbound;
  }

  lemma EmptyMeansNoTriggers(sel: Selector, forest: seq<Tree>)
    requires IsSelectorOf(sel, forest)
    ensures sel.Empty() <==> forall tree :: tree in forest ==> tree.trigger.None?
  {
    if forall tree :: tree in forest ==> Expressible(tree) {
      if sel.Empty() {
        forall tree | tree in forest
          ensures tree.trigger.None?
        {
          if tree.trigger.Some? {
            assert Expressible(tree);
            var top := MaximalAbove(FlagMatchOf(tree.trigger.value).value, MatchesOf(forest));
          }
        }
      } else if sel.flags != [] {
        assert sel.flags[0] in sel.flags;
        assert Maximal(sel.flags[0], MatchesOf(forest));
      }
    }
  }

  /** So is every derived selector's class of resources. */
  lemma SelectorIsDerived(sel: Selector, forest: seq<Tree>)
    requires IsSelectorOf(sel, forest)
    ensures Derived(sel)
  {
    forall m | m in sel.flags
      ensures m.mask == 0xff || m.mask == m.value
    {
      assert Maximal(m, MatchesOf(forest));
    }
  }

  // ---------------------------------------------------------------- narrowing is unobservable

  /** One packet through the engine. The strategy's state S holds gas and whatever else
      its actions keep; `act` is what the matching trees do. A packet no trigger covers
      comes back as it was and consumes nothing. */
  ghost function Apply<S>(forest: seq<Tree>, exotic: (Trigger, Packet) -> bool,
                          act: (S, Packet) -> (S, seq<Packet>), st: S, p: Packet): (S, seq<Packet>) {
    if Touches(forest, p, exotic) then act(st, p) else (st, [p])
  }

  /** Queue everything. */
  ghost function SteerAll<S>(forest: seq<Tree>, exotic: (Trigger, Packet) -> bool,
                             act: (S, Packet) -> (S, seq<Packet>), st: S, ps: seq<Packet>): (S, seq<seq<Packet>>) {
    if ps == [] then (st, [])
    else
      var (st1, out) := Apply(forest, exotic, act, st, ps[0]);
      var (st2, outs) := SteerAll(forest, exotic, act, st1, ps[1..]);
      (st2, [out] + outs)
  }

  /** Queue the flags that are to be queued; the kernel passes the rest untouched. */
  ghost function SteerQueued<S>(queued: bv8 -> bool, forest: seq<Tree>, exotic: (Trigger, Packet) -> bool,
                                act: (S, Packet) -> (S, seq<Packet>), st: S, ps: seq<Packet>): (S, seq<seq<Packet>>) {
    if ps == [] then (st, [])
    else
      var (st1, out) := if queued(Octet(ps[0].flags)) then Apply(forest, exotic, act, st, ps[0]) else (st, [ps[0]]);
      var (st2, outs) := SteerQueued(queued, forest, exotic, act, st1, ps[1..]);
      (st2, [out] + outs)
  }

  /** For every strategy, every strategy state and every packet sequence, a kernel that queues
      at least what the scope selects emits the same packets and leaves the same state as one
      that queues everything. */
  lemma {:induction false} NarrowedSteeringIsUnobservable<S>(
    queued: bv8 -> bool, sel: Selector, forest: seq<Tree>, exotic: (Trigger, Packet) -> bool,
    act: (S, Packet) -> (S, seq<Packet>), st: S, ps: seq<Packet>)
    requires IsSelectorOf(sel, forest) && WellWrittenForest(forest)
    requires forall flags: bv8 :: Selects(sel, flags) ==> queued(flags)
    ensures SteerQueued(queued, forest, exotic, act, st, ps) == SteerAll(forest, exotic, act, st, ps)
  {
    hide Octet;
    if ps != [] {
      if Touches(forest, ps[0], exotic) {
        SelectorIsNeverTooNarrow(sel, forest, ps[0], exotic);
      }
      var (st1, out) := Apply(forest, exotic, act, st, ps[0]);
      NarrowedSteeringIsUnobservable(queued, sel, forest, exotic, act, st1, ps[1..]);
    }
  }
}
