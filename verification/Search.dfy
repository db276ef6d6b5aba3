/** Header discovery: nothing in a container names its key derivation or its cipher, so every candidate is
    tried. The phased search of the program equals the plain nested one. */
module HeaderSearch {
  import opened Bytes
  import opened Disks
  import opened VcTypes
  import opened Xts
  import opened Containers
  import opened Headers

  datatype Prf = Prf(name: string, defaultIterations: nat)

  datatype Secret = Secret(passphrase: seq<byte>, pim: nat)

  /** The cryptography under the format: encryption schemes, key-derivation functions, the stretched key
      (function, passphrase, salt, iterations, key length) and the checksum. */
  datatype Suite = Suite(schemes: seq<Scheme>, prfs: seq<Prf>, known: Prf -> bool,
                         stretch: (Prf, seq<byte>, seq<byte>, nat, nat) -> seq<byte>, crc: Crc)

  /** A shorter stretched key is a prefix of a longer one (section 5.2 of RFC 8018). */
  ghost predicate Stretches(k: Suite)
  {
    forall p: Prf, pass: seq<byte>, salt: seq<byte>, it: nat, n: nat, m: nat :: n <= m ==>
      && |k.stretch(p, pass, salt, it, n)| == n
      && |k.stretch(p, pass, salt, it, m)| == m
      && k.stretch(p, pass, salt, it, m)[..n] == k.stretch(p, pass, salt, it, n)
  }

  ghost predicate SoundSuite(k: Suite)
  {
    && k.prfs != []
    && (forall i :: 0 <= i < |k.schemes| ==> SoundScheme(k.schemes[i]))
    && Stretches(k)
  }

  function Iterations(prf: Prf, pim: nat): nat
  {
    if pim == 0 then prf.defaultIterations else 15000 + pim * 1000
  }

  function Derive(k: Suite, prf: Prf, secret: Secret, salt: seq<byte>, n: nat): VcResult<seq<byte>>
  {
    if k.known(prf) then Good(k.stretch(prf, secret.passphrase, salt, Iterations(prf, secret.pim), n))
    else Bad(Internal("unknown PRF " + prf.name))
  }

  datatype Slot = Slot(position: Position, salt: seq<byte>, enc: seq<byte>)

  datatype Found = Found(header: Header, scheme: Scheme, prf: Prf)

  // ---- The plain search --------------------------------------------------------------------------

  datatype Triple = Triple(prf: Prf, slot: Slot, scheme: Scheme)

  datatype Verdict = Valid(header: Header) | Finding(error: VcError) | Miss | Broken(error: VcError)

  /** What a decrypted candidate says. */
  function Reading(crc: Crc, d: seq<byte>, position: Position): Verdict
    requires |d| == 448
  {
    match Parse(crc, d, position)
    case Good(header) => Valid(header)
    case Bad(e) => if e == NotFoundOrWrongPassword then Miss else Finding(e)
  }

  ghost predicate SoundTriple(t: Triple)
  {
    SoundScheme(t.scheme) && |t.slot.enc| == 448
  }

  /** A slot decrypted with a key of exactly the scheme's size. */
  function Opened(scheme: Scheme, key: seq<byte>, enc: seq<byte>): (d: seq<byte>)
    requires SoundScheme(scheme) && |key| == KeyBytes(scheme)
    ensures |d| == |enc|
  {
    KeyingIsSound(scheme, key);
    CascadeInverse(Keying(scheme, key).value);
    Cascade(Keying(scheme, key).value).decrypt(enc, 0)
  }

  /** One candidate judged by itself, its key derived at exactly the length its scheme needs. */
  function Judge(k: Suite, secret: Secret, t: Triple): Verdict
    requires Stretches(k) && SoundTriple(t)
  {
    match Derive(k, t.prf, secret, t.slot.salt, KeyBytes(t.scheme))
    case Bad(e) => Broken(e)
    case Good(key) => Reading(k.crc, Opened(t.scheme, key, t.slot.enc), t.slot.position)
  }

  function OfSlot(prf: Prf, slot: Slot, schemes: seq<Scheme>): (ts: seq<Triple>)
    ensures |ts| == |schemes|
  {
    seq(|schemes|, i requires 0 <= i < |schemes| => Triple(prf, slot, schemes[i]))
  }

  function OfPrf(prf: Prf, slots: seq<Slot>, schemes: seq<Scheme>): seq<Triple>
  {
    if slots == [] then [] else OfSlot(prf, slots[0], schemes) + OfPrf(prf, slots[1..], schemes)
  }

  /** All candidates: key derivations outermost, then slots, schemes innermost. */
  function Triples(prfs: seq<Prf>, slots: seq<Slot>, schemes: seq<Scheme>): seq<Triple>
  {
    if prfs == [] then [] else OfPrf(prfs[0], slots, schemes) + Triples(prfs[1..], slots, schemes)
  }

  ghost predicate SoundTriples(ts: seq<Triple>)
  {
    forall i :: 0 <= i < |ts| ==> SoundTriple(ts[i])
  }

  /** Where a partial search stands: decided, or going on with the last diagnosis it kept. */
  datatype Sweep = Done(result: VcResult<Found>) | Going(finding: Option<VcError>)

  function Hunt(k: Suite, secret: Secret, ts: seq<Triple>, finding: Option<VcError>): Sweep
    requires Stretches(k) && SoundTriples(ts)
    decreases |ts|
  {
    if ts == [] then Going(finding)
    else
      match Judge(k, secret, ts[0])
      case Valid(header) => Done(Good(Found(header, ts[0].scheme, ts[0].prf)))
      case Broken(e) => Done(Bad(e))
      case Finding(e) => Hunt(k, secret, ts[1..], Some(e))
      case Miss => Hunt(k, secret, ts[1..], finding)
  }

  function Conclude(s: Sweep): VcResult<Found>
  {
    match s
    case Done(r) => r
    case Going(finding) => Bad(if finding.Some? then finding.value else NotFoundOrWrongPassword)
  }

  lemma {:induction false} HuntConcat(k: Suite, secret: Secret, a: seq<Triple>, b: seq<Triple>, finding: Option<VcError>)
    requires Stretches(k) && SoundTriples(a) && SoundTriples(b)
    ensures SoundTriples(a + b)
    ensures Hunt(k, secret, a + b, finding)
         == if Hunt(k, secret, a, finding).Done? then Hunt(k, secret, a, finding)
            else Hunt(k, secret, b, Hunt(k, secret, a, finding).finding)
    decreases |a|
  {
    if a == [] {
      assert a + b == b;
    } else {
      assert (a + b)[1..] == a[1..] + b;
      HuntConcat(k, secret, a[1..], b, finding);
      var verdict := Judge(k, secret, a[0]);
      if verdict.Finding? {
        HuntConcat(k, secret, a[1..], b, Some(verdict.error));
      }
    }
  }

  predicate Stops(v: Verdict) { v.Valid? || v.Broken? }

  lemma {:induction false} OfPrfAt(prf: Prf, slots: seq<Slot>, schemes: seq<Scheme>, b: nat, c: nat)
    requires b < |slots| && c < |schemes|
    ensures |OfPrf(prf, slots, schemes)| == |slots| * |schemes| && b * |schemes| + c < |OfPrf(prf, slots, schemes)|
    ensures OfPrf(prf, slots, schemes)[b * |schemes| + c] == Triple(prf, slots[b], schemes[c])
    decreases |slots|
  {
    OfPrfCount(prf, slots, schemes);
    MulMono(b + 1, |slots|, |schemes|);
    BlocksEnd(b, 1, |schemes|);
    if b > 0 {
      OfPrfAt(prf, slots[1..], schemes, b - 1, c);
      BlocksEnd(b - 1, 1, |schemes|);
    } else {
      assert b * |schemes| == 0;
    }
  }

  lemma {:induction false} OfPrfCount(prf: Prf, slots: seq<Slot>, schemes: seq<Scheme>)
    ensures |OfPrf(prf, slots, schemes)| == |slots| * |schemes|
  {
    if slots != [] {
      OfPrfCount(prf, slots[1..], schemes);
      BlocksEnd(1, |slots| - 1, |schemes|);
    }
  }

  lemma {:induction false} TriplesCount(prfs: seq<Prf>, slots: seq<Slot>, schemes: seq<Scheme>)
    ensures |Triples(prfs, slots, schemes)| == |prfs| * (|slots| * |schemes|)
  {
    hide OfPrf;
    if prfs != [] {
      OfPrfCount(prfs[0], slots, schemes);
      TriplesCount(prfs[1..], slots, schemes);
      BlocksEnd(1, |prfs| - 1, |slots| * |schemes|);
    }
  }

  /** The order of the candidates: function by function, under each slot by slot, under each scheme by scheme. */
  lemma {:induction false} TriplesInOrder(prfs: seq<Prf>, slots: seq<Slot>, schemes: seq<Scheme>, a: nat, b: nat, c: nat)
    requires a < |prfs| && b < |slots| && c < |schemes|
    ensures |Triples(prfs, slots, schemes)| == |prfs| * (|slots| * |schemes|)
    ensures a * (|slots| * |schemes|) + (b * |schemes| + c) < |Triples(prfs, slots, schemes)|
    ensures Triples(prfs, slots, schemes)[a * (|slots| * |schemes|) + (b * |schemes| + c)] == Triple(prfs[a], slots[b], schemes[c])
    decreases |prfs|
  {
    hide OfPrf;
    TriplesCount(prfs, slots, schemes);
    OfPrfAt(prfs[0], slots, schemes, b, c);
    var n := |slots| * |schemes|;
    if a > 0 {
      TriplesInOrder(prfs[1..], slots, schemes, a - 1, b, c);
      BlocksEnd(a - 1, 1, n);
      BlocksEnd(1, |prfs| - 1, n);
    } else {
      assert a * n == 0;
      BlocksEnd(1, |prfs| - 1, n);
      MulNonNegative(|prfs| - 1, n);
    }
  }

  /** What the plain search returns: the first candidate that validates or breaks decides; when none
      does, the last diagnosis, and failing that, wrong password. */
  lemma {:induction false} PlainMeans(k: Suite, secret: Secret, ts: seq<Triple>, finding: Option<VcError>)
    requires Stretches(k) && SoundTriples(ts)
    ensures forall i :: 0 <= i < |ts| && Judge(k, secret, ts[i]).Valid?
                        && (forall j :: 0 <= j < i ==> !Stops(Judge(k, secret, ts[j]))) ==>
              Conclude(Hunt(k, secret, ts, finding))
              == Good(Found(Judge(k, secret, ts[i]).header, ts[i].scheme, ts[i].prf))
    ensures forall i :: 0 <= i < |ts| && Judge(k, secret, ts[i]).Broken?
                        && (forall j :: 0 <= j < i ==> !Stops(Judge(k, secret, ts[j]))) ==>
              Conclude(Hunt(k, secret, ts, finding)) == Bad(Judge(k, secret, ts[i]).error)
    ensures forall i :: 0 <= i < |ts| && Judge(k, secret, ts[i]).Finding?
                        && (forall j :: 0 <= j < |ts| ==> !Stops(Judge(k, secret, ts[j])))
                        && (forall j :: i < j < |ts| ==> Judge(k, secret, ts[j]).Miss?) ==>
              Conclude(Hunt(k, secret, ts, finding)) == Bad(Judge(k, secret, ts[i]).error)
    ensures (forall j :: 0 <= j < |ts| ==> Judge(k, secret, ts[j]).Miss?) ==>
              Hunt(k, secret, ts, finding) == Going(finding)
              && Conclude(Hunt(k, secret, ts, finding)) == Bad(if finding == None then NotFoundOrWrongPassword else finding.value)
    decreases |ts|
  {
    hide Judge;
    if ts != [] {
      var rest := ts[1..];
      var next := if Judge(k, secret, ts[0]).Finding? then Some(Judge(k, secret, ts[0]).error) else finding;
      PlainMeans(k, secret, rest, next);
      assert forall i :: 0 < i < |ts| ==> ts[i] == rest[i - 1];
      assert forall i :: 0 <= i < |rest| ==> rest[i] == ts[i + 1];
    }
  }

  // ---- The phased search ------------------------------------------------------------------------

  function MaxKey(schemes: seq<Scheme>): (n: nat)
    ensures forall i :: 0 <= i < |schemes| ==> KeyBytes(schemes[i]) <= n
  {
    if schemes == [] then 0 else Max(KeyBytes(schemes[0]), MaxKey(schemes[1..]))
  }

  /** The slots the container can hold, read in the order asked for. */
  function ReadSlots(bytes: seq<byte>, positions: seq<Position>): VcResult<seq<Slot>>
    requires |bytes| <= U64_MAX
  {
    if positions == [] then Good([])
    else
      match PositionOffset(positions[0], |bytes|)
      case None => ReadSlots(bytes, positions[1..])
      case Some(at) =>
        if |bytes| < at + 512 then Bad(DeviceIo)
        else
          var rest := ReadSlots(bytes, positions[1..]);
          if rest.Bad? then rest
          else Good([Slot(positions[0], bytes[at..at + 64], bytes[at + 64..at + 512])] + rest.value)
  }

  ghost predicate WholeSlots(slots: seq<Slot>)
  {
    forall i :: 0 <= i < |slots| ==> |slots[i].salt| == 64 && |slots[i].enc| == 448
  }

  ghost predicate SoundSchemes(schemes: seq<Scheme>)
  {
    forall i :: 0 <= i < |schemes| ==> SoundScheme(schemes[i])
  }

  lemma {:induction false} SlotsWhole(bytes: seq<byte>, positions: seq<Position>)
    requires |bytes| <= U64_MAX && ReadSlots(bytes, positions).Good?
    ensures WholeSlots(ReadSlots(bytes, positions).value)
  {
    if positions != [] {
      var at := PositionOffset(positions[0], |bytes|);
      SlotsWhole(bytes, positions[1..]);
    }
  }

  lemma {:induction false} OfPrfSound(prf: Prf, slots: seq<Slot>, schemes: seq<Scheme>)
    requires WholeSlots(slots) && SoundSchemes(schemes)
    ensures SoundTriples(OfPrf(prf, slots, schemes))
  {
    if slots != [] {
      OfPrfSound(prf, slots[1..], schemes);
    }
  }

  lemma {:induction false} TriplesSound(prfs: seq<Prf>, slots: seq<Slot>, schemes: seq<Scheme>)
    requires WholeSlots(slots) && SoundSchemes(schemes)
    ensures SoundTriples(Triples(prfs, slots, schemes))
  {
    if prfs != [] {
      OfPrfSound(prfs[0], slots, schemes);
      TriplesSound(prfs[1..], slots, schemes);
    }
  }

  /** The whole search as its documentation describes it. */
  function Searched(k: Suite, secret: Secret, bytes: seq<byte>, positions: seq<Position>): VcResult<Found>
    requires SoundSuite(k) && |bytes| <= U64_MAX
  {
    if MaxKey(k.schemes) == 0 then Bad(Internal("no encryption schemes implemented"))
    else
      match ReadSlots(bytes, positions)
      case Bad(e) => Bad(e)
      case Good(slots) =>
        SlotsWhole(bytes, positions);
        TriplesSound(k.prfs, slots, k.schemes);
        Conclude(Hunt(k, secret, Triples(k.prfs, slots, k.schemes), None))
  }

  /** One progress report. */
  datatype Step = Step(index: nat, total: nat, prf: string)

  function Announced(prfs: seq<Prf>, n: nat, step: nat, total: nat): seq<Step>
  {
    if prfs == [] then []
    else seq(n, i requires 0 <= i < n => Step(step + i, total, prfs[0].name)) + Announced(prfs[1..], n, step + n, total)
  }

  /** The full list of reports counts every step once, in order. */
  lemma {:induction false} AnnouncedInOrder(prfs: seq<Prf>, n: nat, step: nat, total: nat)
    ensures |Announced(prfs, n, step, total)| == |prfs| * n
    ensures forall i :: 0 <= i < |prfs| * n ==>
      Announced(prfs, n, step, total)[i].index == step + i && Announced(prfs, n, step, total)[i].total == total
  {
    if prfs != [] {
      AnnouncedInOrder(prfs[1..], n, step + n, total);
      assert |prfs| * n == n + |prfs[1..]| * n;
    }
  }

  /** What one slot's schemes find under one derived key. */
  datatype Outcome = Hit(header: Header, scheme: Scheme) | Diagnosed(error: VcError) | NoMatch

  function After(o: Outcome, prf: Prf, finding: Option<VcError>): Sweep
  {
    match o
    case Hit(header, scheme) => Done(Good(Found(header, scheme, prf)))
    case Diagnosed(e) => Going(Some(e))
    case NoMatch => Going(finding)
  }

  lemma OfSlotSound(prf: Prf, slot: Slot, schemes: seq<Scheme>)
    requires |slot.enc| == 448 && SoundSchemes(schemes)
    ensures SoundTriples(OfSlot(prf, slot, schemes))
  {
  }

  /** Judging one scheme with its prefix of the longest key. */
  lemma JudgeByPrefix(k: Suite, secret: Secret, t: Triple, n: nat, key: seq<byte>)
    requires Stretches(k) && SoundTriple(t) && KeyBytes(t.scheme) <= n
    requires Derive(k, t.prf, secret, t.slot.salt, n) == Good(key)
    ensures |key| == n
    ensures Judge(k, secret, t)
         == Reading(k.crc, Opened(t.scheme, key[..KeyBytes(t.scheme)], t.slot.enc), t.slot.position)
  {
    assert |k.stretch(t.prf, secret.passphrase, t.slot.salt, Iterations(t.prf, secret.pim), n)| == n;
    assert |k.stretch(t.prf, secret.passphrase, t.slot.salt, Iterations(t.prf, secret.pim), KeyBytes(t.scheme))|
           == KeyBytes(t.scheme);
  }

  lemma HuntStep(k: Suite, secret: Secret, prf: Prf, slot: Slot, schemes: seq<Scheme>, i: nat, finding: Option<VcError>)
    requires Stretches(k) && |slot.enc| == 448 && SoundSchemes(schemes) && i < |schemes|
    ensures SoundTriples(OfSlot(prf, slot, schemes[i..])) && SoundTriples(OfSlot(prf, slot, schemes[i + 1..]))
    ensures SoundTriple(Triple(prf, slot, schemes[i]))
    ensures Hunt(k, secret, OfSlot(prf, slot, schemes[i..]), finding) ==
      match Judge(k, secret, Triple(prf, slot, schemes[i]))
      case Valid(header) => Done(Good(Found(header, schemes[i], prf)))
      case Broken(e) => Done(Bad(e))
      case Finding(e) => Hunt(k, secret, OfSlot(prf, slot, schemes[i + 1..]), Some(e))
      case Miss => Hunt(k, secret, OfSlot(prf, slot, schemes[i + 1..]), finding)
  {
    hide Judge;
    var ts := OfSlot(prf, slot, schemes[i..]);
    assert ts[1..] == OfSlot(prf, slot, schemes[i + 1..]);
  }

  /** Every scheme decrypts the slot with its prefix of one long key; the result is the plain search over
      the slot's candidates, each with a key of its own. */
  method TrySchemes(k: Suite, key: seq<byte>, prf: Prf, slot: Slot, ghost secret: Secret, ghost finding: Option<VcError>)
    returns (o: Outcome)
    requires SoundSuite(k) && |slot.enc| == 448
    requires Derive(k, prf, secret, slot.salt, MaxKey(k.schemes)) == Good(key)
    ensures SoundTriples(OfSlot(prf, slot, k.schemes))
    ensures Hunt(k, secret, OfSlot(prf, slot, k.schemes), finding) == After(o, prf, finding)
  {
    hide Hunt, Judge, Parse, Opened, Derive, Stretches, SoundScheme, OfSlot, Keying, Cascade;
    OfSlotSound(prf, slot, k.schemes);
    var kept: Option<VcError> := None;
    var i := 0;
    assert k.schemes[0..] == k.schemes;
    while i < |k.schemes|
      invariant i <= |k.schemes|
      invariant SoundTriples(OfSlot(prf, slot, k.schemes[i..]))
      invariant Hunt(k, secret, OfSlot(prf, slot, k.schemes), finding)
             == Hunt(k, secret, OfSlot(prf, slot, k.schemes[i..]), if kept.Some? then kept else finding)
    {
      var scheme := k.schemes[i];
      HuntStep(k, secret, prf, slot, k.schemes, i, if kept.Some? then kept else finding);
      JudgeByPrefix(k, secret, Triple(prf, slot, scheme), MaxKey(k.schemes), key);
      var d := OpenSlot(scheme, key[..KeyBytes(scheme)], slot.enc);
      match Parse(k.crc, d, slot.position) {
        case Good(header) =>
          return Hit(header, scheme);
        case Bad(e) =>
          if e != NotFoundOrWrongPassword {
            kept := Some(e);
          }
      }
      i := i + 1;
    }
    NoSchemes(k, secret, prf, slot, if kept.Some? then kept else finding);
    assert k.schemes[i..] == [];
    return if kept.Some? then Diagnosed(kept.value) else NoMatch;
  }

  lemma NoSchemes(k: Suite, secret: Secret, prf: Prf, slot: Slot, finding: Option<VcError>)
    requires Stretches(k)
    ensures Hunt(k, secret, OfSlot(prf, slot, []), finding) == Going(finding)
  {
  }

  /** Keys the scheme and decrypts a copy of the slot's header in place. */
  method OpenSlot(scheme: Scheme, key: seq<byte>, enc: seq<byte>) returns (d: seq<byte>)
    requires SoundScheme(scheme) && |key| == KeyBytes(scheme)
    ensures d == Opened(scheme, key, enc)
  {
    KeyingIsSound(scheme, key);
    var layers := Keying(scheme, key).value;
    var buf := new byte[|enc|];
    Overwrite(buf, enc);
    DecryptHeader(layers, buf);
    d := buf[..];
  }

  lemma OfPrfStep(k: Suite, secret: Secret, prf: Prf, slots: seq<Slot>, i: nat, finding: Option<VcError>)
    requires SoundSuite(k) && WholeSlots(slots) && i < |slots|
    ensures SoundTriples(OfSlot(prf, slots[i], k.schemes))
    ensures SoundTriples(OfPrf(prf, slots[i..], k.schemes)) && SoundTriples(OfPrf(prf, slots[i + 1..], k.schemes))
    ensures Hunt(k, secret, OfPrf(prf, slots[i..], k.schemes), finding)
         == if Hunt(k, secret, OfSlot(prf, slots[i], k.schemes), finding).Done? then
              Hunt(k, secret, OfSlot(prf, slots[i], k.schemes), finding)
            else
              Hunt(k, secret, OfPrf(prf, slots[i + 1..], k.schemes),
                   Hunt(k, secret, OfSlot(prf, slots[i], k.schemes), finding).finding)
  {
    hide Hunt;
    OfSlotSound(prf, slots[i], k.schemes);
    OfPrfSound(prf, slots[i..], k.schemes);
    OfPrfSound(prf, slots[i + 1..], k.schemes);
    assert slots[i..][1..] == slots[i + 1..];
    HuntConcat(k, secret, OfSlot(prf, slots[i], k.schemes), OfPrf(prf, slots[i + 1..], k.schemes), finding);
  }

  /** A key that cannot be derived stops the search at the slot's first candidate. */
  lemma BrokenSlot(k: Suite, secret: Secret, prf: Prf, slot: Slot, finding: Option<VcError>)
    requires SoundSuite(k) && |slot.enc| == 448 && k.schemes != []
    requires Derive(k, prf, secret, slot.salt, MaxKey(k.schemes)).Bad?
    ensures SoundTriples(OfSlot(prf, slot, k.schemes))
    ensures Hunt(k, secret, OfSlot(prf, slot, k.schemes), finding)
         == Done(Bad(Derive(k, prf, secret, slot.salt, MaxKey(k.schemes)).error))
  {
    assert k.schemes[0..] == k.schemes;
    HuntStep(k, secret, prf, slot, k.schemes, 0, finding);
  }

  function Reports(prf: Prf, step: nat, total: nat, n: nat): (s: seq<Step>)
    ensures |s| == n
  {
    seq(n, i requires 0 <= i < n => Step(step + i, total, prf.name))
  }

  /** The result of one slot under one function's longest key, or the error of deriving it. */
  method TryKey(k: Suite, key: VcResult<seq<byte>>, prf: Prf, slot: Slot, ghost secret: Secret,
                finding: Option<VcError>)
    returns (s: Sweep)
    requires SoundSuite(k) && |slot.enc| == 448 && k.schemes != []
    requires key == Derive(k, prf, secret, slot.salt, MaxKey(k.schemes))
    ensures SoundTriples(OfSlot(prf, slot, k.schemes))
    ensures s == Hunt(k, secret, OfSlot(prf, slot, k.schemes), finding)
  {
    if key.Bad? {
      BrokenSlot(k, secret, prf, slot, finding);
      return Done(Bad(key.error));
    }
    var o := TrySchemes(k, key.value, prf, slot, secret, finding);
    match o {
      case Hit(header, scheme) => s := Done(Good(Found(header, scheme, prf)));
      case Diagnosed(e) => s := Going(Some(e));
      case NoMatch => s := Going(finding);
    }
  }

  /** One function against slots `from` onwards: all keys first, then the slots in order. */
  method SweepSlots(k: Suite, secret: Secret, prf: Prf, slots: seq<Slot>, from: nat, finding: Option<VcError>,
                    step: nat, total: nat)
    returns (s: Sweep, log: seq<Step>)
    requires SoundSuite(k) && WholeSlots(slots) && from <= |slots| && k.schemes != []
    ensures SoundTriples(OfPrf(prf, slots[from..], k.schemes))
    ensures s == Hunt(k, secret, OfPrf(prf, slots[from..], k.schemes), finding)
    ensures |log| <= |slots| - from && log == Reports(prf, step, total, |log|)
    ensures s.Going? ==> |log| == |slots| - from
  {
    hide Hunt, Derive, OfPrf, Stretches, SoundScheme, OfSlot;
    OfPrfSound(prf, slots[from..], k.schemes);
    var keys := seq(|slots|, i requires 0 <= i < |slots| => Derive(k, prf, secret, slots[i].salt, MaxKey(k.schemes)));
    var i := from;
    s, log := Going(finding), [];
    while i < |slots|
      invariant from <= i <= |slots| && s.Going?
      invariant |log| == i - from && log == Reports(prf, step, total, |log|)
      invariant SoundTriples(OfPrf(prf, slots[i..], k.schemes))
      invariant Hunt(k, secret, OfPrf(prf, slots[from..], k.schemes), finding)
             == Hunt(k, secret, OfPrf(prf, slots[i..], k.schemes), s.finding)
    {
      log := log + [Step(step + (i - from), total, prf.name)];
      OfPrfStep(k, secret, prf, slots, i, s.finding);
      s := TryKey(k, keys[i], prf, slots[i], secret, s.finding);
      if s.Done? {
        return;
      }
      i := i + 1;
    }
    NoSlots(k, secret, prf, s.finding);
    assert slots[i..] == [];
  }

  lemma NoSlots(k: Suite, secret: Secret, prf: Prf, finding: Option<VcError>)
    requires Stretches(k)
    ensures SoundTriples(OfPrf(prf, [], k.schemes)) && Hunt(k, secret, OfPrf(prf, [], k.schemes), finding) == Going(finding)
  {
  }

  lemma TriplesStep(k: Suite, secret: Secret, prfs: seq<Prf>, slots: seq<Slot>, p: nat, finding: Option<VcError>)
    requires SoundSuite(k) && WholeSlots(slots) && p < |prfs|
    ensures SoundTriples(OfPrf(prfs[p], slots, k.schemes))
    ensures SoundTriples(Triples(prfs[p..], slots, k.schemes)) && SoundTriples(Triples(prfs[p + 1..], slots, k.schemes))
    ensures Hunt(k, secret, Triples(prfs[p..], slots, k.schemes), finding)
         == if Hunt(k, secret, OfPrf(prfs[p], slots, k.schemes), finding).Done? then
              Hunt(k, secret, OfPrf(prfs[p], slots, k.schemes), finding)
            else
              Hunt(k, secret, Triples(prfs[p + 1..], slots, k.schemes),
                   Hunt(k, secret, OfPrf(prfs[p], slots, k.schemes), finding).finding)
  {
    hide Hunt;
    OfPrfSound(prfs[p], slots, k.schemes);
    TriplesSound(prfs[p..], slots, k.schemes);
    TriplesSound(prfs[p + 1..], slots, k.schemes);
    assert prfs[p..][1..] == prfs[p + 1..];
    HuntConcat(k, secret, OfPrf(prfs[p], slots, k.schemes), Triples(prfs[p + 1..], slots, k.schemes), finding);
  }

  lemma AnnouncedStep(prfs: seq<Prf>, p: nat, n: nat, step: nat, total: nat)
    requires p < |prfs|
    ensures Announced(prfs[p..], n, step, total)
         == Reports(prfs[p], step, total, n) + Announced(prfs[p + 1..], n, step + n, total)
  {
    assert prfs[p..][1..] == prfs[p + 1..];
  }

  /** The first function: the first slot alone, then the other slots together. */
  method FirstFunction(k: Suite, secret: Secret, slots: seq<Slot>, total: nat) returns (s: Sweep, log: seq<Step>)
    requires SoundSuite(k) && WholeSlots(slots) && k.schemes != []
    ensures SoundTriples(OfPrf(k.prfs[0], slots, k.schemes))
    ensures s == Hunt(k, secret, OfPrf(k.prfs[0], slots, k.schemes), None)
    ensures |log| <= |slots| && log == Reports(k.prfs[0], 0, total, |log|)
    ensures s.Going? ==> |log| == |slots|
  {
    hide Hunt, Derive, OfPrf, Stretches, SoundScheme, OfSlot;
    var prf := k.prfs[0];
    OfPrfSound(prf, slots, k.schemes);
    s, log := Going(None), [];
    assert slots[0..] == slots;
    if |slots| == 0 {
      NoSlots(k, secret, prf, None);
      return;
    }
    OfPrfStep(k, secret, prf, slots, 0, None);
    log := [Step(0, total, prf.name)];
    var key := Derive(k, prf, secret, slots[0].salt, MaxKey(k.schemes));
    s := TryKey(k, key, prf, slots[0], secret, None);
    if s.Done? {
      return;
    }
    if |slots| > 1 {
      var more;
      s, more := SweepSlots(k, secret, prf, slots, 1, s.finding, 1, total);
      log := log + more;
    } else {
      NoSlots(k, secret, prf, s.finding);
      assert slots[1..] == [];
    }
  }

  /** A search cut short has made the first reports of the full list. */
  lemma PrefixReports(log: seq<Step>, more: seq<Step>, prf: Prf, n: nat, step: nat, total: nat, rest: seq<Step>,
                      all: seq<Step>)
    requires |log| == step && |more| <= n && more == Reports(prf, step, total, |more|)
    requires all == log + (Reports(prf, step, total, n) + rest)
    ensures log + more <= all
    ensures |more| == n ==> all == (log + more) + rest
  {
    var made := log + more;
    assert forall i :: 0 <= i < |made| ==> made[i] == all[i];
  }

  /** The phased search: one derivation for the first slot, then the same function for the other slots,
      then each remaining function over all slots. It returns what the plain search returns; its progress
      reports are the first of the full list, and all of them when no candidate decides. */
  method FindHeaderAt(dev: Disk, k: Suite, secret: Secret, positions: seq<Position>)
    returns (r: VcResult<Found>, log: seq<Step>)
    requires SoundSuite(k) && |dev.bytes| <= U64_MAX
    ensures r == Searched(k, secret, dev.bytes, positions)
    ensures ReadSlots(dev.bytes, positions).Bad? ==> log == []
    ensures MaxKey(k.schemes) > 0 && ReadSlots(dev.bytes, positions).Good? ==>
      log <= Announced(k.prfs, |ReadSlots(dev.bytes, positions).value|, 0,
                       |ReadSlots(dev.bytes, positions).value| * |k.prfs|)
    ensures MaxKey(k.schemes) > 0 && ReadSlots(dev.bytes, positions).Good? && Undecided(k, secret, dev.bytes, positions) ==>
      log == Announced(k.prfs, |ReadSlots(dev.bytes, positions).value|, 0,
                       |ReadSlots(dev.bytes, positions).value| * |k.prfs|)
  {
    hide *;
    var most := MaxKey(k.schemes);
    SearchedIs(k, secret, dev.bytes, positions);
    if most == 0 {
      return Bad(Internal("no encryption schemes implemented")), [];
    }
    var got := GatherSlots(dev, positions);
    if got.Bad? {
      return Bad(got.error), [];
    }
    r, log := SearchSlots(k, secret, got.value);
  }

  /** No candidate validates and no key fails to derive. */
  ghost predicate Undecided(k: Suite, secret: Secret, bytes: seq<byte>, positions: seq<Position>)
    requires SoundSuite(k) && |bytes| <= U64_MAX && ReadSlots(bytes, positions).Good?
  {
    var slots := ReadSlots(bytes, positions).value;
    SlotsWhole(bytes, positions);
    TriplesSound(k.prfs, slots, k.schemes);
    Hunt(k, secret, Triples(k.prfs, slots, k.schemes), None).Going?
  }

  lemma SearchedIs(k: Suite, secret: Secret, bytes: seq<byte>, positions: seq<Position>)
    requires SoundSuite(k) && |bytes| <= U64_MAX
    ensures MaxKey(k.schemes) == 0 ==>
      Searched(k, secret, bytes, positions) == Bad(Internal("no encryption schemes implemented"))
    ensures MaxKey(k.schemes) > 0 ==> k.schemes != []
    ensures MaxKey(k.schemes) > 0 && ReadSlots(bytes, positions).Bad? ==>
      Searched(k, secret, bytes, positions) == Bad(ReadSlots(bytes, positions).error)
    ensures Stretches(k)
    ensures ReadSlots(bytes, positions).Good? ==>
      && WholeSlots(ReadSlots(bytes, positions).value)
      && SoundTriples(Triples(k.prfs, ReadSlots(bytes, positions).value, k.schemes))
      && (MaxKey(k.schemes) > 0 ==>
            Searched(k, secret, bytes, positions)
            == Conclude(Hunt(k, secret, Triples(k.prfs, ReadSlots(bytes, positions).value, k.schemes), None)))
      && (Undecided(k, secret, bytes, positions)
          <==> Hunt(k, secret, Triples(k.prfs, ReadSlots(bytes, positions).value, k.schemes), None).Going?)
  {
    if ReadSlots(bytes, positions).Good? {
      SlotsWhole(bytes, positions);
      TriplesSound(k.prfs, ReadSlots(bytes, positions).value, k.schemes);
    }
  }

  /** Slots already read in front of the rest, or the error of the rest. */
  function Joined(slots: seq<Slot>, rest: VcResult<seq<Slot>>): VcResult<seq<Slot>>
  {
    if rest.Bad? then rest else Good(slots + rest.value)
  }

  lemma JoinMore(slots: seq<Slot>, slot: Slot, rest: VcResult<seq<Slot>>)
    ensures Joined(slots, Joined([slot], rest)) == Joined(slots + [slot], rest)
  {
    if rest.Good? {
      assert slots + ([slot] + rest.value) == slots + [slot] + rest.value;
    }
  }

  lemma JoinEnds(slots: seq<Slot>, rest: VcResult<seq<Slot>>)
    ensures Joined([], rest) == rest && Joined(slots, Good([])) == Good(slots)
  {
    if rest.Good? {
      assert [] + rest.value == rest.value;
    }
    assert slots + [] == slots;
  }

  lemma ReadStep(bytes: seq<byte>, positions: seq<Position>, i: nat)
    requires |bytes| <= U64_MAX && i < |positions|
    ensures ReadSlots(bytes, positions[i..]) ==
      match PositionOffset(positions[i], |bytes|)
      case None => ReadSlots(bytes, positions[i + 1..])
      case Some(at) =>
        if |bytes| < at + 512 then Bad(DeviceIo)
        else Joined([Slot(positions[i], bytes[at..at + 64], bytes[at + 64..at + 512])], ReadSlots(bytes, positions[i + 1..]))
  {
    assert positions[i..][1..] == positions[i + 1..];
  }

  /** Reads salt and ciphertext of every slot the container can hold. */
  method GatherSlots(dev: Disk, positions: seq<Position>) returns (r: VcResult<seq<Slot>>)
    requires |dev.bytes| <= U64_MAX
    ensures r == ReadSlots(dev.bytes, positions)
  {
    hide ReadSlots, PositionOffset, Joined;
    var slots: seq<Slot> := [];
    var i := 0;
    assert positions[0..] == positions;
    JoinEnds([], ReadSlots(dev.bytes, positions));
    while i < |positions|
      invariant i <= |positions|
      invariant ReadSlots(dev.bytes, positions) == Joined(slots, ReadSlots(dev.bytes, positions[i..]))
    {
      ReadStep(dev.bytes, positions, i);
      BadJoined(slots);
      var at := PositionOffset(positions[i], |dev.bytes|);
      if at.Some? {
        var salt := dev.ReadAt(at.value, 64);
        if salt.Err? {
          return Bad(DeviceIo);
        }
        var enc := dev.ReadAt(at.value + 64, 448);
        if enc.Err? {
          return Bad(DeviceIo);
        }
        JoinMore(slots, Slot(positions[i], salt.value, enc.value), ReadSlots(dev.bytes, positions[i + 1..]));
        slots := slots + [Slot(positions[i], salt.value, enc.value)];
      }
      i := i + 1;
    }
    assert positions[i..] == [];
    NoPositions(dev.bytes);
    JoinEnds(slots, Good([]));
    return Good(slots);
  }

  lemma BadJoined(slots: seq<Slot>)
    ensures Joined(slots, Bad(DeviceIo)) == Bad(DeviceIo)
  {
  }

  lemma NoPositions(bytes: seq<byte>)
    requires |bytes| <= U64_MAX
    ensures ReadSlots(bytes, []) == Good([])
  {
  }

  method SearchSlots(k: Suite, secret: Secret, slots: seq<Slot>) returns (r: VcResult<Found>, log: seq<Step>)
    requires SoundSuite(k) && WholeSlots(slots) && k.schemes != []
    ensures SoundTriples(Triples(k.prfs, slots, k.schemes))
    ensures r == Conclude(Hunt(k, secret, Triples(k.prfs, slots, k.schemes), None))
    ensures log <= Announced(k.prfs, |slots|, 0, |slots| * |k.prfs|)
    ensures Hunt(k, secret, Triples(k.prfs, slots, k.schemes), None).Going? ==>
      log == Announced(k.prfs, |slots|, 0, |slots| * |k.prfs|)
  {
    var n, total := |slots|, |slots| * |k.prfs|;
    hide Hunt, Derive, OfPrf, Stretches, SoundScheme, OfSlot, Triples, Announced, Reports;
    ghost var all := Announced(k.prfs, n, 0, total);
    assert k.prfs[0..] == k.prfs && slots[0..] == slots;
    TriplesStep(k, secret, k.prfs, slots, 0, None);
    AnnouncedStep(k.prfs, 0, n, 0, total);
    var s;
    s, log := FirstFunction(k, secret, slots, total);
    assert all == [] + (Reports(k.prfs[0], 0, total, n) + Announced(k.prfs[1..], n, n, total));
    PrefixReports([], log, k.prfs[0], n, 0, total, Announced(k.prfs[1..], n, n, total), all);
    assert [] + log == log;
    var p := 1;
    while s.Going? && p < |k.prfs|
      invariant 1 <= p <= |k.prfs| && log <= all
      invariant SoundTriples(Triples(k.prfs, slots, k.schemes)) && SoundTriples(Triples(k.prfs[p..], slots, k.schemes))
      invariant Hunt(k, secret, Triples(k.prfs, slots, k.schemes), None)
             == if s.Done? then s else Hunt(k, secret, Triples(k.prfs[p..], slots, k.schemes), s.finding)
      invariant s.Going? ==> all == log + Announced(k.prfs[p..], n, |log|, total)
      decreases |k.prfs| - p
    {
      TriplesStep(k, secret, k.prfs, slots, p, s.finding);
      AnnouncedStep(k.prfs, p, n, |log|, total);
      var more;
      ghost var step := |log|;
      s, more := SweepSlots(k, secret, k.prfs[p], slots, 0, s.finding, |log|, total);
      PrefixReports(log, more, k.prfs[p], n, step, total, Announced(k.prfs[p + 1..], n, step + n, total), all);
      log := log + more;
      p := p + 1;
    }
    if s.Going? {
      assert k.prfs[p..] == [];
      NoFunctions(k, secret, slots, s.finding, n, |log|, total);
    }
    return Conclude(s), log;
  }

  lemma NoFunctions(k: Suite, secret: Secret, slots: seq<Slot>, finding: Option<VcError>, n: nat, step: nat, total: nat)
    requires Stretches(k)
    ensures SoundTriples(Triples([], slots, k.schemes))
    ensures Hunt(k, secret, Triples([], slots, k.schemes), finding) == Going(finding)
    ensures Announced([], n, step, total) == []
  {
  }
}
