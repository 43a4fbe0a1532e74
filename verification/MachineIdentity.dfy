/**
 * The machine identity: two optional components, normalised, and a digest over a
 * length-prefixed transcript of those that are available. The hash is a parameter; a
 * collision-free hash is assumed only on the inputs at hand.
 */
module MachineIdentity {
  import opened Bytes

  // ---- characters ----

  predicate IsSpace(b: Byte) { b == 0x20 || 0x09 <= b <= 0x0D }

  predicate IsHex(b: Byte) { 0x30 <= b <= 0x39 || 0x61 <= b <= 0x66 || 0x41 <= b <= 0x46 }

  function LowerHex(b: Byte): Byte { if 0x41 <= b <= 0x46 then b + 0x20 else b }

  function Lowered(s: Bytes): Bytes { seq(|s|, i requires 0 <= i < |s| => LowerHex(s[i])) }

  // ---- trimming ----

  predicate Blank(s: Bytes) { forall i :: 0 <= i < |s| ==> IsSpace(s[i]) }

  /** Nothing, or something that neither begins nor ends with a space. */
  predicate Tight(s: Bytes) { s != [] ==> !IsSpace(s[0]) && !IsSpace(s[|s| - 1]) }

  function Trim(s: Bytes): Bytes {
    if s == [] then []
    else if IsSpace(s[0]) then Trim(s[1..])
    else if IsSpace(s[|s| - 1]) then Trim(s[..|s| - 1])
    else s
  }

  /** What remains is tight, and only spaces were cut off. */
  lemma {:induction false} TrimParts(s: Bytes) returns (lead: Bytes, trail: Bytes)
    ensures s == lead + Trim(s) + trail && Blank(lead) && Blank(trail) && Tight(Trim(s))
  {
    lead, trail := [], [];
    if s != [] {
      var n := |s| - 1;
      if IsSpace(s[0]) {
        lead, trail := TrimParts(s[1..]);
        FrontOn(s, lead, Trim(s), trail);
        lead := [s[0]] + lead;
      } else if IsSpace(s[n]) {
        lead, trail := TrimParts(s[..n]);
        BackOn(s, lead, Trim(s), trail);
        trail := trail + [s[n]];
      }
    }
  }

  lemma FrontOn(s: Bytes, lead: Bytes, core: Bytes, trail: Bytes)
    requires s != [] && s[1..] == lead + core + trail
    ensures s == ([s[0]] + lead) + core + trail
  {
    assert s == [s[0]] + s[1..];
  }

  lemma BackOn(s: Bytes, lead: Bytes, core: Bytes, trail: Bytes)
    requires s != [] && s[..|s| - 1] == lead + core + trail
    ensures s == lead + core + (trail + [s[|s| - 1]])
  {
    assert s == s[..|s| - 1] + [s[|s| - 1]];
  }

  /** Surrounding spaces make no difference. */
  lemma {:induction false} TrimIgnoresSpace(lead: Bytes, s: Bytes, trail: Bytes)
    requires Blank(lead) && Blank(trail)
    ensures Trim(lead + s + trail) == Trim(s)
    decreases |lead| + |s| + |trail|
  {
    var all := lead + s + trail;
    if lead != [] {
      assert all[0] == lead[0] && all[1..] == lead[1..] + s + trail;
      TrimIgnoresSpace(lead[1..], s, trail);
    } else if s != [] && IsSpace(s[0]) {
      assert all[1..] == [] + s[1..] + trail;
      TrimIgnoresSpace([], s[1..], trail);
    } else if trail != [] {
      var less := trail[..|trail| - 1];
      if s == [] {
        assert all == trail && all[1..] == trail[1..] + [] + [];
        TrimIgnoresSpace(trail[1..], [], []);
      } else {
        assert all[..|all| - 1] == [] + s + less;
        TrimIgnoresSpace([], s, less);
      }
    } else {
      assert all == s;
    }
  }

  /** trimAscii: from the front, then from the back. */
  method TrimAscii(s: Bytes) returns (value: Bytes)
    ensures value == Trim(s)
  {
    value := s;
    while value != [] && IsSpace(value[0])
      invariant Trim(value) == Trim(s)
      decreases |value|
    {
      value := value[1..];
    }
    while value != [] && IsSpace(value[|value| - 1])
      invariant Trim(value) == Trim(s)
      invariant value != [] ==> !IsSpace(value[0])
      decreases |value|
    {
      value := value[..|value| - 1];
    }
  }

  // ---- the two normalisers ----

  predicate AllHex(s: Bytes) { forall i :: 0 <= i < |s| ==> IsHex(s[i]) }

  function NormalizeMachineId(s: Bytes): Option<Bytes> {
    var t := Trim(s);
    if |t| == 32 && AllHex(t) then Some(Lowered(t)) else None
  }

  const HYPHEN: Byte := 0x2D

  predicate HyphenAt(i: nat) { i == 8 || i == 13 || i == 18 || i == 23 }

  predicate UuidShaped(t: Bytes) {
    |t| == 36 && forall i :: 0 <= i < 36 ==> if HyphenAt(i) then t[i] == HYPHEN else IsHex(t[i])
  }

  /** The digits of a UUID without its hyphens. */
  function UuidDigits(t: Bytes): Bytes
    requires |t| == 36
  {
    t[..8] + t[9..13] + t[14..18] + t[19..23] + t[24..]
  }

  function NormalizeProductUuid(s: Bytes): Option<Bytes> {
    var t := Trim(s);
    if UuidShaped(t) then Some(Lowered(UuidDigits(t))) else None
  }

  /** The digits among the first n characters of a UUID. */
  function DigitsUpTo(t: Bytes, n: nat): Bytes
    requires n <= |t|
  {
    if n == 0 then [] else if HyphenAt(n - 1) then DigitsUpTo(t, n - 1) else DigitsUpTo(t, n - 1) + [t[n - 1]]
  }

  lemma {:induction false} DigitRun(t: Bytes, from: nat, until: nat)
    requires from <= until <= |t| && forall i :: from <= i < until ==> !HyphenAt(i)
    ensures DigitsUpTo(t, until) == DigitsUpTo(t, from) + t[from..until]
  {
    if from < until {
      DigitRun(t, from, until - 1);
      assert t[from..until] == t[from..until - 1] + [t[until - 1]];
    }
  }

  /** One group and the hyphen after it. */
  lemma DigitGroup(t: Bytes, from: nat, until: nat)
    requires from <= until < |t| && HyphenAt(until) && forall i :: from <= i < until ==> !HyphenAt(i)
    ensures DigitsUpTo(t, until + 1) == DigitsUpTo(t, from) + t[from..until]
  {
    DigitRun(t, from, until);
  }

  lemma DigitsAreGroups(t: Bytes)
    requires |t| == 36
    ensures DigitsUpTo(t, |t|) == UuidDigits(t)
  {
    var a, b, c, d := 8, 13, 18, 23;
    var zero := 0;
    assert t[..a] == t[zero..a];
    DigitGroup(t, zero, a);
    DigitGroup(t, a + 1, b);
    DigitGroup(t, b + 1, c);
    DigitGroup(t, c + 1, d);
    DigitRun(t, d + 1, |t|);
  }

  /** normalizeProductUuid. */
  method NormalizeUuid(input: Bytes) returns (r: Option<Bytes>)
    ensures r == NormalizeProductUuid(input)
  {
    var t := TrimAscii(input);
    if |t| != 36 { return None; }
    var output: Bytes := [];
    var i := 0;
    while i < |t|
      invariant 0 <= i <= |t|
      invariant forall k :: 0 <= k < i ==> if HyphenAt(k) then t[k] == HYPHEN else IsHex(t[k])
      invariant output == Lowered(DigitsUpTo(t, i))
    {
      if HyphenAt(i) {
        if t[i] != HYPHEN { return None; }
      } else {
        if !IsHex(t[i]) { return None; }
        output := output + [LowerHex(t[i])];
      }
      i := i + 1;
    }
    DigitsAreGroups(t);
    return Some(output);
  }

  /** normalizeMachineId. */
  method NormalizeId(input: Bytes) returns (r: Option<Bytes>)
    ensures r == NormalizeMachineId(input)
  {
    var t := TrimAscii(input);
    if |t| != 32 { return None; }
    var output: Bytes := [];
    var i := 0;
    while i < |t|
      invariant 0 <= i <= |t|
      invariant forall k :: 0 <= k < i ==> IsHex(t[k])
      invariant output == Lowered(t[..i])
    {
      if !IsHex(t[i]) { return None; }
      output := output + [LowerHex(t[i])];
      i := i + 1;
    }
    assert t[..i] == t;
    return Some(output);
  }

  // ---- case ----

  function Upper(b: Byte): Byte { if 0x61 <= b <= 0x7A then b - 0x20 else b }

  /** Equal but for the case of ASCII letters. */
  predicate SameLetters(s: Bytes, t: Bytes) {
    |s| == |t| && forall i :: 0 <= i < |s| ==> Upper(s[i]) == Upper(t[i])
  }

  lemma CaseOfByte(a: Byte, b: Byte)
    requires Upper(a) == Upper(b)
    ensures IsSpace(a) == IsSpace(b) && IsHex(a) == IsHex(b) && (a == HYPHEN <==> b == HYPHEN)
            && (IsHex(a) ==> LowerHex(a) == LowerHex(b))
  {
  }

  lemma {:induction false} TrimSameLetters(s: Bytes, t: Bytes)
    requires SameLetters(s, t)
    ensures SameLetters(Trim(s), Trim(t))
  {
    if s != [] {
      CaseOfByte(s[0], t[0]);
      CaseOfByte(s[|s| - 1], t[|t| - 1]);
      if IsSpace(s[0]) {
        TrimSameLetters(s[1..], t[1..]);
      } else if IsSpace(s[|s| - 1]) {
        TrimSameLetters(s[..|s| - 1], t[..|t| - 1]);
      }
    }
  }

  lemma SameNormalForms(s: Bytes, t: Bytes)
    requires SameLetters(s, t)
    ensures NormalizeMachineId(s) == NormalizeMachineId(t)
    ensures NormalizeProductUuid(s) == NormalizeProductUuid(t)
  {
    TrimSameLetters(s, t);
    var a, b := Trim(s), Trim(t);
    forall i | 0 <= i < |a|
      ensures IsHex(a[i]) == IsHex(b[i]) && (a[i] == HYPHEN <==> b[i] == HYPHEN)
              && (IsHex(a[i]) ==> LowerHex(a[i]) == LowerHex(b[i]))
    {
      CaseOfByte(a[i], b[i]);
    }
    if |a| == 32 && AllHex(a) {
      assert Lowered(a) == Lowered(b);
    }
    if UuidShaped(a) {
      assert UuidShaped(b);
      LoweredDigits(a, b);
    }
    if UuidShaped(b) {
      assert UuidShaped(a);
    }
  }

  lemma LoweredDigits(a: Bytes, b: Bytes)
    requires |a| == 36 && |b| == 36 && forall i :: 0 <= i < 36 && !HyphenAt(i) ==> LowerHex(a[i]) == LowerHex(b[i])
    ensures Lowered(UuidDigits(a)) == Lowered(UuidDigits(b))
  {
  }

  // ---- components ----

  datatype ReadResult = Contents(bytes: Bytes) | MissingFile | Unread

  datatype Status = Available | Missing | Unreadable | Invalid

  datatype Component = Component(name: Bytes, value: Bytes)

  const MACHINE_ID: Bytes := Ascii("machine-id")
  const PRODUCT_UUID: Bytes := Ascii("product-uuid")

  /** What a component reads as: its status and, when available, its normal form. */
  function StatusOf(read: ReadResult, normal: Option<Bytes>): Status {
    match read
    case MissingFile => Missing
    case Unread => Unreadable
    case Contents(_) => if normal.Some? then Available else Invalid
  }

  function MachineIdOf(read: ReadResult): Option<Bytes> {
    if read.Contents? then NormalizeMachineId(read.bytes) else None
  }

  function ProductUuidOf(read: ReadResult): Option<Bytes> {
    if read.Contents? then NormalizeProductUuid(read.bytes) else None
  }

  function NormalOf(read: ReadResult, machine: bool): Option<Bytes> {
    if machine then MachineIdOf(read) else ProductUuidOf(read)
  }

  function NameOf(machine: bool): Bytes { if machine then MACHINE_ID else PRODUCT_UUID }

  /** readComponent. */
  method ReadComponent(read: ReadResult, machine: bool, before: seq<Component>)
      returns (status: Status, after: seq<Component>)
    ensures status == StatusOf(read, NormalOf(read, machine))
    ensures after == before
            + (if NormalOf(read, machine).Some? then [Component(NameOf(machine), NormalOf(read, machine).value)]
              else [])
  {
    after := before;
    if read.MissingFile? { return Missing, after; }
    if !read.Contents? { return Unreadable, after; }
    var normalized: Option<Bytes>;
    if machine {
      normalized := NormalizeId(read.bytes);
    } else {
      normalized := NormalizeUuid(read.bytes);
    }
    if normalized.None? { return Invalid, after; }
    after := before + [Component(NameOf(machine), normalized.value)];
    return Available, after;
  }

  /** The available components in the order of their labels, which is the order they are read in. */
  function Components(machine: ReadResult, uuid: ReadResult): (cs: seq<Component>)
    ensures forall c :: c in cs ==> |c.name| <= 12 && |c.value| == 32
    ensures |cs| <= 2 && (|cs| == 2 ==> cs[0].name == MACHINE_ID && cs[1].name == PRODUCT_UUID)
  {
    var m, u := MachineIdOf(machine), ProductUuidOf(uuid);
    (if m.Some? then [Component(MACHINE_ID, m.value)] else [])
      + (if u.Some? then [Component(PRODUCT_UUID, u.value)] else [])
  }

  /** The components say which of the two are available and what their normal forms are. */
  lemma ComponentsDetermine(m: ReadResult, u: ReadResult, n: ReadResult, v: ReadResult)
    ensures Components(m, u) == Components(n, v) <==>
              MachineIdOf(m) == MachineIdOf(n) && ProductUuidOf(u) == ProductUuidOf(v)
  {
    assert |MACHINE_ID| != |PRODUCT_UUID|;
    var a, b := Components(m, u), Components(n, v);
    if a == b && a != [] {
      assert a[0] == b[0] && a[|a| - 1] == b[|b| - 1];
    }
  }

  // ---- the transcript ----

  const ID_DOMAIN: Bytes := Ascii("YOAUTHORIZE-MACHINE-ID-V1")
  const COMPONENT_DOMAIN: Bytes := Ascii("YOAUTHORIZE-MACHINE-COMPONENT-V1")

  type Hash = Bytes -> Option<Bytes>

  function Field(value: Bytes): Bytes { BigEndian(|value|, 4) + value }

  function ComponentInput(c: Component): Bytes {
    Field(COMPONENT_DOMAIN) + Field(c.name) + Field(c.value)
  }

  datatype Entry = Entry(name: Bytes, digest: Bytes)

  /** Name and digest of each component, each with its length. */
  function Entries(entries: seq<Entry>): Bytes {
    if entries == [] then [] else Field(entries[0].name) + Field(entries[0].digest) + Entries(entries[1..])
  }

  function Transcript(entries: seq<Entry>): Bytes {
    Field(ID_DOMAIN) + BigEndian(|entries|, 4) + Entries(entries)
  }

  /** The digests of the components, if every hash succeeds. */
  function Digested(sha: Hash, cs: seq<Component>): Option<seq<Entry>> {
    if cs == [] then Some([]) else
    var done, digest := Digested(sha, cs[..|cs| - 1]), sha(ComponentInput(cs[|cs| - 1]));
    if done.Some? && digest.Some? then Some(done.value + [Entry(cs[|cs| - 1].name, digest.value)]) else None
  }

  const DIGITS: Bytes := Ascii("0123456789abcdef")

  function Hex(digest: Bytes): (text: Bytes)
    ensures |text| == 2 * |digest|
  {
    if digest == [] then []
    else Hex(digest[..|digest| - 1]) + TwoDigits(digest[|digest| - 1])
  }

  /** hexDigest. */
  method HexDigest(digest: Bytes) returns (output: Bytes)
    ensures output == Hex(digest)
  {
    output := [];
    var i := 0;
    while i < |digest|
      invariant 0 <= i <= |digest|
      invariant output == Hex(digest[..i])
    {
      output := output + [DIGITS[digest[i] / 16]];
      output := output + [DIGITS[digest[i] % 16]];
      assert digest[..i + 1][..i] == digest[..i];
      i := i + 1;
    }
    assert digest[..i] == digest;
  }

  function TwoDigits(b: Byte): Bytes { [DIGITS[b / 16], DIGITS[b % 16]] }

  lemma TwoDigitsInjective(a: Byte, b: Byte)
    requires TwoDigits(a) == TwoDigits(b)
    ensures a == b
  {
    assert TwoDigits(a)[0] == TwoDigits(b)[0] && TwoDigits(a)[1] == TwoDigits(b)[1];
    DigitsDiffer(a / 16, b / 16);
    DigitsDiffer(a % 16, b % 16);
  }

  lemma {:induction false} HexInjective(a: Bytes, b: Bytes)
    requires Hex(a) == Hex(b)
    ensures a == b
  {
    if a != [] {
      var i := |a| - 1;
      SplitEqual(Hex(a[..i]), TwoDigits(a[i]), Hex(b[..i]), TwoDigits(b[i]));
      HexInjective(a[..i], b[..i]);
      TwoDigitsInjective(a[i], b[i]);
      assert a == a[..i] + [a[i]] && b == b[..i] + [b[i]];
    }
  }

  lemma DigitsDiffer(i: nat, j: nat)
    requires i < 16 && j < 16 && DIGITS[i] == DIGITS[j]
    ensures i == j
  {
  }

  // ---- the transcript determines what went into it ----

  predicate Short(b: Bytes) { |b| < U32_LIMIT }

  lemma FieldSplit(a: Bytes, x: Bytes, b: Bytes, y: Bytes)
    requires Short(a) && Short(b) && Field(a) + x == Field(b) + y
    ensures a == b && x == y
  {
    assert Field(a) + x == BigEndian(|a|, 4) + (a + x);
    assert Field(b) + y == BigEndian(|b|, 4) + (b + y);
    SplitEqual(BigEndian(|a|, 4), a + x, BigEndian(|b|, 4), b + y);
    PowerLimits();
    BigEndianInjective(|a|, |b|, 4);
    SplitEqual(a, x, b, y);
  }

  predicate ShortEntries(entries: seq<Entry>) {
    |entries| < U32_LIMIT && forall i :: 0 <= i < |entries| ==> Short(entries[i].name) && Short(entries[i].digest)
  }

  lemma FirstEntrySplit(a: Entry, x: Bytes, b: Entry, y: Bytes)
    requires Short(a.name) && Short(a.digest) && Short(b.name) && Short(b.digest)
    requires Field(a.name) + Field(a.digest) + x == Field(b.name) + Field(b.digest) + y
    ensures a == b && x == y
  {
    var p, q := Field(a.digest) + x, Field(b.digest) + y;
    Regroup(Field(a.name), Field(a.digest), x);
    Regroup(Field(b.name), Field(b.digest), y);
    FieldSplit(a.name, p, b.name, q);
    FieldSplit(a.digest, x, b.digest, y);
  }

  lemma Regroup(x: Bytes, y: Bytes, z: Bytes)
    ensures x + y + z == x + (y + z)
  {
  }

  lemma {:induction false} EntriesInjective(a: seq<Entry>, b: seq<Entry>)
    requires ShortEntries(a) && ShortEntries(b) && |a| == |b| && Entries(a) == Entries(b)
    ensures a == b
  {
    if a != [] {
      FirstEntrySplit(a[0], Entries(a[1..]), b[0], Entries(b[1..]));
      EntriesInjective(a[1..], b[1..]);
      assert a == [a[0]] + a[1..] && b == [b[0]] + b[1..];
    }
  }

  lemma {:induction false} TranscriptInjective(a: seq<Entry>, b: seq<Entry>)
    requires ShortEntries(a) && ShortEntries(b) && Transcript(a) == Transcript(b)
    ensures a == b
  {
    var x, y := Entries(a), Entries(b);
    SplitTranscript(Field(ID_DOMAIN), BigEndian(|a|, 4), x, BigEndian(|b|, 4), y);
    PowerLimits();
    BigEndianInjective(|a|, |b|, 4);
    EntriesInjective(a, b);
  }

  lemma SplitTranscript(head: Bytes, m: Bytes, x: Bytes, n: Bytes, y: Bytes)
    requires head + m + x == head + n + y && |m| == |n|
    ensures m == n && x == y
  {
    SplitEqual(head + m, x, head + n, y);
    SplitEqual(head, m, head, n);
  }

  lemma ComponentInputInjective(a: Component, b: Component)
    requires Short(a.name) && Short(a.value) && Short(b.name) && Short(b.value)
             && ComponentInput(a) == ComponentInput(b)
    ensures a == b
  {
    assert ComponentInput(a) == Field(COMPONENT_DOMAIN) + (Field(a.name) + Field(a.value));
    assert ComponentInput(b) == Field(COMPONENT_DOMAIN) + (Field(b.name) + Field(b.value));
    FieldSplit(COMPONENT_DOMAIN, Field(a.name) + Field(a.value), COMPONENT_DOMAIN, Field(b.name) + Field(b.value));
    assert Field(a.value) == Field(a.value) + [] && Field(b.value) == Field(b.value) + [];
    FieldSplit(a.name, Field(a.value), b.name, Field(b.value));
    FieldSplit(a.value, [], b.value, []);
  }

  // ---- collection ----

  datatype Config = Config(requireMachineId: bool, requireProductUuid: bool)

  datatype Outcome = Identified(id: Bytes) | Unavailable | HashFailed

  datatype Collected = Collected(machineId: Status, productUuid: Status, outcome: Outcome)

  /** Every required component, and at least one. */
  predicate Sufficient(config: Config, m: ReadResult, u: ReadResult) {
    && (config.requireMachineId ==> MachineIdOf(m).Some?)
    && (config.requireProductUuid ==> ProductUuidOf(u).Some?)
    && (MachineIdOf(m).Some? || ProductUuidOf(u).Some?)
  }

  function Collect(config: Config, m: ReadResult, u: ReadResult, sha: Hash): Collected {
    Collected(StatusOf(m, MachineIdOf(m)), StatusOf(u, ProductUuidOf(u)),
              if Sufficient(config, m, u) then Identify(sha, Components(m, u)) else Unavailable)
  }

  function Identify(sha: Hash, cs: seq<Component>): Outcome {
    match Digested(sha, cs)
    case None => HashFailed
    case Some(entries) =>
      match sha(Transcript(entries))
      case None => HashFailed
      case Some(digest) => Identified(Hex(digest))
  }

  /** appendField of the name, then the length and bytes of the digest. */
  method AppendEntry(transcript: Bytes, e: Entry) returns (r: Bytes)
    ensures r == transcript + (Field(e.name) + Field(e.digest))
  {
    r := transcript + Field(e.name);
    r := r + BigEndian(|e.digest|, 4);
    r := r + e.digest;
  }

  /** The transcript loop: hash each component, append its name and digest. */
  method AppendEntries(sha: Hash, cs: seq<Component>, head: Bytes) returns (r: Option<Bytes>)
    ensures r == if Digested(sha, cs).Some? then Some(head + Entries(Digested(sha, cs).value)) else None
  {
    ghost var entries: seq<Entry> := [];
    var transcript := head;
    var i := 0;
    while i < |cs|
      invariant 0 <= i <= |cs| && |entries| == i
      invariant Digested(sha, cs[..i]) == Some(entries)
      invariant transcript == head + Entries(entries)
    {
      DigestedNext(sha, cs, i);
      var digest := sha(ComponentInput(cs[i]));
      if digest.None? {
        DigestFails(sha, cs, i + 1);
        return None;
      }
      var e := Entry(cs[i].name, digest.value);
      EntriesAppend(entries, e);
      entries := entries + [e];
      transcript := AppendEntry(transcript, e);
      i := i + 1;
    }
    assert cs[..i] == cs;
    return Some(transcript);
  }

  method IdentifyComponents(sha: Hash, cs: seq<Component>) returns (r: Outcome)
    ensures r == Identify(sha, cs)
  {
    if Digested(sha, cs).Some? {
      DigestedShape(sha, cs);
    }
    var head := Field(ID_DOMAIN) + BigEndian(|cs|, 4);
    var transcript := AppendEntries(sha, cs, head);
    if transcript.None? { return HashFailed; }
    var digest := sha(transcript.value);
    if digest.None? { return HashFailed; }
    var id := HexDigest(digest.value);
    return Identified(id);
  }

  lemma {:induction false} DigestedNext(sha: Hash, cs: seq<Component>, i: nat)
    requires i < |cs| && Digested(sha, cs[..i]).Some?
    ensures Digested(sha, cs[..i + 1]) == if sha(ComponentInput(cs[i])).Some?
            then Some(Digested(sha, cs[..i]).value + [Entry(cs[i].name, sha(ComponentInput(cs[i])).value)]) else None
  {
    assert cs[..i + 1][..i] == cs[..i];
  }

  lemma {:induction false} EntriesAppend(entries: seq<Entry>, e: Entry)
    ensures Entries(entries + [e]) == Entries(entries) + (Field(e.name) + Field(e.digest))
  {
    var last := Field(e.name) + Field(e.digest);
    if entries == [] {
      assert [e][1..] == [];
      assert entries + [e] == [e];
      assert Entries([e]) == last + [] == [] + last;
    } else {
      EntriesAppend(entries[1..], e);
      assert (entries + [e])[1..] == entries[1..] + [e];
      var head, rest := Field(entries[0].name) + Field(entries[0].digest), Entries(entries[1..]);
      assert Entries(entries + [e]) == head + (rest + last);
      assert head + (rest + last) == (head + rest) + last;
    }
  }

  lemma {:induction false} DigestFails(sha: Hash, cs: seq<Component>, n: nat)
    requires n <= |cs| && Digested(sha, cs[..n]).None?
    ensures Digested(sha, cs).None?
    decreases |cs| - n
  {
    if n < |cs| {
      assert cs[..n + 1][..n] == cs[..n];
      DigestFails(sha, cs, n + 1);
    } else {
      assert cs[..n] == cs;
    }
  }

  /** collectLinuxMachineIdentity. */
  method CollectIdentity(config: Config, m: ReadResult, u: ReadResult, sha: Hash) returns (r: Collected)
    ensures r == Collect(config, m, u, sha)
  {
    var statusM, first := ReadComponent(m, true, []);
    var statusU, normalized := ReadComponent(u, false, first);
    assert normalized == Components(m, u);
    if (config.requireMachineId && statusM != Available) || (config.requireProductUuid && statusU != Available) {
      return Collected(statusM, statusU, Unavailable);
    }
    if normalized == [] { return Collected(statusM, statusU, Unavailable); }
    var outcome := IdentifyComponents(sha, normalized);
    return Collected(statusM, statusU, outcome);
  }

  // ---- the identity is canonical ----

  /** Everything that is hashed for a list of components. */
  function Hashed(sha: Hash, cs: seq<Component>): set<Bytes> {
    (set c | c in cs :: ComponentInput(c))
      + (match Digested(sha, cs) case Some(entries) => {Transcript(entries)} case None => {})
  }

  /** Digests of the given inputs have 32 bytes and do not collide. */
  ghost predicate CollisionFree(sha: Hash, inputs: set<Bytes>) {
    && (forall x :: x in inputs && sha(x).Some? ==> |sha(x).value| == 32)
    && (forall x, y :: x in inputs && y in inputs && sha(x).Some? && sha(x) == sha(y) ==> x == y)
  }

  lemma {:induction false} DigestedShape(sha: Hash, cs: seq<Component>)
    requires Digested(sha, cs).Some?
    ensures |Digested(sha, cs).value| == |cs|
    ensures forall i :: 0 <= i < |cs| ==>
              Digested(sha, cs).value[i].name == cs[i].name
                && sha(ComponentInput(cs[i])) == Some(Digested(sha, cs).value[i].digest)
  {
    if cs != [] {
      DigestedShape(sha, cs[..|cs| - 1]);
    }
  }

  lemma {:induction false} DigestedInjective(sha: Hash, a: seq<Component>, b: seq<Component>)
    requires Digested(sha, a).Some? && Digested(sha, a) == Digested(sha, b)
    requires CollisionFree(sha, Hashed(sha, a) + Hashed(sha, b))
    requires forall c :: c in a + b ==> Short(c.name) && Short(c.value)
    ensures a == b
  {
    DigestedShape(sha, a);
    DigestedShape(sha, b);
    forall i | 0 <= i < |a| ensures a[i] == b[i] {
      assert a[i] in a + b && b[i] in a + b;
      assert ComponentInput(a[i]) in Hashed(sha, a) && ComponentInput(b[i]) in Hashed(sha, b);
      ComponentInputInjective(a[i], b[i]);
    }
  }

  lemma {:induction false} DigestedShort(sha: Hash, cs: seq<Component>, inputs: set<Bytes>)
    requires Digested(sha, cs).Some? && Hashed(sha, cs) <= inputs && CollisionFree(sha, inputs)
    requires |cs| < U32_LIMIT && forall c :: c in cs ==> Short(c.name)
    ensures ShortEntries(Digested(sha, cs).value)
  {
    DigestedShape(sha, cs);
    forall i | 0 <= i < |cs|
      ensures Short(Digested(sha, cs).value[i].name) && Short(Digested(sha, cs).value[i].digest)
    {
      assert cs[i] in cs;
      assert ComponentInput(cs[i]) in Hashed(sha, cs);
    }
  }

  lemma {:induction false} IdentifyInjective(sha: Hash, a: seq<Component>, b: seq<Component>)
    requires Identify(sha, a).Identified? && Identify(sha, a) == Identify(sha, b)
    requires |a| < U32_LIMIT && |b| < U32_LIMIT && CollisionFree(sha, Hashed(sha, a) + Hashed(sha, b))
    requires forall c :: c in a + b ==> Short(c.name) && Short(c.value)
    ensures a == b
  {
    var inputs := Hashed(sha, a) + Hashed(sha, b);
    var x, y := Digested(sha, a).value, Digested(sha, b).value;
    assert Transcript(x) in inputs && Transcript(y) in inputs;
    HexInjective(sha(Transcript(x)).value, sha(Transcript(y)).value);
    assert forall c :: c in a || c in b ==> c in a + b;
    DigestedShort(sha, a, inputs);
    DigestedShort(sha, b, inputs);
    TranscriptInjective(x, y);
    DigestedInjective(sha, a, b);
  }

  /**
   * Two successful collections give the same identity exactly when the same components are
   * available with the same normal forms.
   */
  lemma {:induction false} IdentityCanonical(config: Config, m: ReadResult, u: ReadResult, config': Config,
      n: ReadResult, v: ReadResult, sha: Hash)
    requires Collect(config, m, u, sha).outcome.Identified? && Collect(config', n, v, sha).outcome.Identified?
    requires CollisionFree(sha, Hashed(sha, Components(m, u)) + Hashed(sha, Components(n, v)))
    ensures Collect(config, m, u, sha).outcome == Collect(config', n, v, sha).outcome
            <==> MachineIdOf(m) == MachineIdOf(n) && ProductUuidOf(u) == ProductUuidOf(v)
  {
    var a, b := Components(m, u), Components(n, v);
    ComponentsDetermine(m, u, n, v);
    if Identify(sha, a) == Identify(sha, b) {
      forall c: Component | c in a + b ensures Short(c.name) && Short(c.value) {
        assert c in a || c in b;
      }
      IdentifyInjective(sha, a, b);
    }
  }

  /** An identity exists exactly when every required component and at least one is available, unless hashing fails. */
  lemma {:induction false} IdentityExistsIff(config: Config, m: ReadResult, u: ReadResult, sha: Hash)
    ensures Collect(config, m, u, sha).outcome == Unavailable <==>
              || (config.requireMachineId && MachineIdOf(m) == None)
                    || (config.requireProductUuid && ProductUuidOf(u) == None)
              || (MachineIdOf(m) == None && ProductUuidOf(u) == None)
    ensures (forall x :: sha(x).Some?) ==>
              (Collect(config, m, u, sha).outcome.Identified? <==> Collect(config, m, u, sha).outcome != Unavailable)
    ensures Collect(config, m, u, sha).machineId == Available <==> MachineIdOf(m) != None
    ensures Collect(config, m, u, sha).productUuid == Available <==> ProductUuidOf(u) != None
    ensures Collect(config, m, u, sha).machineId == Missing <==> m == MissingFile
    ensures Collect(config, m, u, sha).productUuid == Missing <==> u == MissingFile
    ensures Collect(config, m, u, sha).machineId == Unreadable <==> m == Unread
    ensures Collect(config, m, u, sha).productUuid == Unreadable <==> u == Unread
  {
    if forall x :: sha(x).Some? {
      AllDigested(sha, Components(m, u));
    }
  }

  lemma {:induction false} AllDigested(sha: Hash, cs: seq<Component>)
    requires forall x :: sha(x).Some?
    ensures Digested(sha, cs).Some?
  {
    if cs != [] {
      AllDigested(sha, cs[..|cs| - 1]);
    }
  }

  /** A text with spaces around it. */
  datatype Padded = Padded(lead: Bytes, core: Bytes, trail: Bytes)
  {
    predicate Valid() { Blank(lead) && Blank(trail) }

    function Whole(): Bytes { lead + core + trail }
  }

  /** The same text but for the case of its letters and the spaces around it. */
  ghost predicate SameText(s: Bytes, t: Bytes) {
    exists p: Padded, q: Padded :: p.Valid() && q.Valid() && s == p.Whole() && t == q.Whole()
      && SameLetters(p.core, q.core)
  }

  ghost predicate Alike(r: ReadResult, s: ReadResult) {
    if r.Contents? && s.Contents? then SameText(r.bytes, s.bytes) else r == s
  }

  /** Such files lead to the same statuses, the same error or the same identity. */
  lemma {:induction false} IgnoresCaseAndSpace(config: Config, m: ReadResult, u: ReadResult, n: ReadResult,
      v: ReadResult, sha: Hash)
    requires Alike(m, n) && Alike(u, v)
    ensures Collect(config, m, u, sha) == Collect(config, n, v, sha)
  {
    if m.Contents? {
      SameTextNormal(m.bytes, n.bytes);
    }
    if u.Contents? {
      SameTextNormal(u.bytes, v.bytes);
    }
  }

  lemma SameTextNormal(s: Bytes, t: Bytes)
    requires SameText(s, t)
    ensures NormalizeMachineId(s) == NormalizeMachineId(t) && NormalizeProductUuid(s) == NormalizeProductUuid(t)
  {
    var p: Padded, q: Padded :| p.Valid() && q.Valid() && s == p.Whole() && t == q.Whole()
      && SameLetters(p.core, q.core);
    TrimIgnoresSpace(p.lead, p.core, p.trail);
    TrimIgnoresSpace(q.lead, q.core, q.trail);
    SameNormalForms(p.core, q.core);
  }

  // ---- the normal forms, character by character ----

  predicate HexDigit(b: Byte) { 48 <= b <= 57 || 65 <= b <= 70 || 97 <= b <= 102 }

  /** The lower-case form of a hex digit. */
  predicate Folds(b: Byte, c: Byte) { if 65 <= b <= 70 then c == b + 32 else c == b }

  lemma TightTrim(s: Bytes)
    requires Tight(s)
    ensures Trim(s) == s
  {
  }

  /** A machine id is 32 hex digits with any spaces around them; its normal form is those digits in lower case. */
  lemma MachineIdExact(p: Padded)
    requires p.Valid() && Tight(p.core)
    ensures NormalizeMachineId(p.Whole()).Some? <==> |p.core| == 32 && forall i :: 0 <= i < 32 ==> HexDigit(p.core[i])
    ensures NormalizeMachineId(p.Whole()).Some? ==>
              var id := NormalizeMachineId(p.Whole()).value;
              |id| == 32 && forall i :: 0 <= i < 32 ==> Folds(p.core[i], id[i])
  {
    TrimIgnoresSpace(p.lead, p.core, p.trail);
    TightTrim(p.core);
  }

  /**
   * A product UUID is 36 characters, hyphens at 8, 13, 18 and 23 and hex digits elsewhere; its
   * normal form drops the hyphens.
   */
  lemma ProductUuidExact(p: Padded)
    requires p.Valid() && Tight(p.core)
    ensures NormalizeProductUuid(p.Whole()).Some? <==>
              && |p.core| == 36 && p.core[8] == 45 && p.core[13] == 45 && p.core[18] == 45 && p.core[23] == 45
              && forall i :: 0 <= i < 36 && i !in {8, 13, 18, 23} ==> HexDigit(p.core[i])
    ensures NormalizeProductUuid(p.Whole()).Some? ==>
              var id := NormalizeProductUuid(p.Whole()).value;
              && |id| == 32
              && (forall i :: 0 <= i < 8 ==> Folds(p.core[i], id[i]))
              && (forall i :: 8 <= i < 12 ==> Folds(p.core[i + 1], id[i]))
              && (forall i :: 12 <= i < 16 ==> Folds(p.core[i + 2], id[i]))
              && (forall i :: 16 <= i < 20 ==> Folds(p.core[i + 3], id[i]))
              && (forall i :: 20 <= i < 32 ==> Folds(p.core[i + 4], id[i]))
  {
    TrimIgnoresSpace(p.lead, p.core, p.trail);
    TightTrim(p.core);
    if |p.core| == 36 {
      assert HyphenAt(8) && HyphenAt(13) && HyphenAt(18) && HyphenAt(23);
      assert forall i :: 0 <= i < 36 ==> (HyphenAt(i) <==> i in {8, 13, 18, 23});
    }
  }
}
