/** The header slots of a container as the format defines them, said without the search: where they lie, how their
    key is stretched and split, and what their bytes decrypt to. */
module SlotLayouts {
  import opened Bytes
  import opened Containers
  import opened HeaderLayouts
  import opened HeaderSearch
  import opened Headers
  import opened Rekeying
  import opened VcTypes
  import opened Xts

  /** The work factor: the function's own when there is no PIM, else 15000 and 1000 more for each unit of it. */
  lemma IterationsAre(prf: Prf, pim: nat)
    ensures Iterations(prf, 0) == prf.defaultIterations && Iterations(prf, 1) == 16000
    ensures 0 < pim ==> Iterations(prf, pim + 1) == Iterations(prf, pim) + 1000
  {
  }

  /** Where a slot starts in a container of `len` bytes. */
  function SlotStart(p: Position, len: nat): int
  {
    match p
    case Primary => 0
    case Hidden => 65536
    case BackupPrimary => len - 131072
    case BackupHidden => len - 65536
  }

  /** The search looks for a slot where the container reaches back that far, for the hidden one where it is long enough
      to hold it; the rewriter uses the front slot and the back slot of the same kind. */
  lemma PositionsAre(p: Position, len: u64)
    ensures PositionOffset(p, len).Some? <==> 0 <= SlotStart(p, len) && (p == Hidden ==> 66048 <= len)
    ensures PositionOffset(p, len).Some? ==> PositionOffset(p, len).value == SlotStart(p, len)
    ensures PrimaryOffset(p) == SlotStart(if p == Primary || p == BackupPrimary then Primary else Hidden, len)
    ensures 131072 <= len ==>
      BackupOffset(p, len) == SlotStart(if p == Primary || p == BackupPrimary then BackupPrimary else BackupHidden, len)
  {
  }

  /** The slot at `at` holds `plain`: the first 64 bytes are the salt, the key stretched from secret and salt is all
      primary keys and then all secondary keys, and the other 448 bytes are `plain` encrypted through the ciphers of
      the scheme in turn, as unit 0. */
  ghost predicate Holds(k: Suite, slot: seq<byte>, secret: Secret, prf: Prf, scheme: Scheme, plain: seq<byte>,
                        primaries: seq<seq<byte>>, secondaries: seq<seq<byte>>, texts: seq<seq<byte>>)
  {
    var n, iterations := |scheme.ciphers|, if secret.pim == 0 then prf.defaultIterations else 15000 + 1000 * secret.pim;
    && |slot| == 512 && |plain| == 448 && KeysFor(scheme, primaries) && KeysFor(scheme, secondaries)
    && k.stretch(prf, secret.passphrase, slot[..64], iterations, 64 * n) == Flat(primaries) + Flat(secondaries)
    && Texts(scheme, primaries, secondaries, 0, texts) && texts[0] == plain && texts[n] == slot[64..]
  }

  /** Such a slot decrypts to that header. */
  lemma HeldDecrypts(k: Suite, bytes: seq<byte>, at: nat, secret: Secret, prf: Prf, scheme: Scheme, plain: seq<byte>,
                     primaries: seq<seq<byte>>, secondaries: seq<seq<byte>>, texts: seq<seq<byte>>)
    requires Stretches(k) && SoundScheme(scheme) && at + 512 <= |bytes|
    requires Holds(k, bytes[at..at + 512], secret, prf, scheme, plain, primaries, secondaries, texts)
    ensures SlotPlain(k, bytes, at, secret, prf, scheme) == plain
  {
    var slot := bytes[at..at + 512];
    assert bytes[at..at + 64] == slot[..64] && bytes[at + 64..at + 512] == slot[64..];
    CascadeMeans(scheme, primaries, secondaries, 0, texts);
    hide Keying, Cascade, Stretches, SoundScheme, Texts;
  }

  /** The writer's copy of a header is such a slot. */
  lemma CopyHolds(k: Suite, secret: Secret, prf: Prf, scheme: Scheme, salt: seq<byte>, plain: seq<byte>,
                  primaries: seq<seq<byte>>, secondaries: seq<seq<byte>>, texts: seq<seq<byte>>)
    requires Stretches(k) && SoundScheme(scheme)
    requires |salt| == 64 && |plain| == 448 && KeysFor(scheme, primaries) && KeysFor(scheme, secondaries)
    requires Flat(primaries) + Flat(secondaries) == k.stretch(prf, secret.passphrase, salt,
      if secret.pim == 0 then prf.defaultIterations else 15000 + 1000 * secret.pim, 64 * |scheme.ciphers|)
    requires Texts(scheme, primaries, secondaries, 0, texts) && texts[0] == plain
    ensures HeaderCopy(k, secret, prf, scheme, salt, plain) == salt + texts[|scheme.ciphers|]
    ensures Holds(k, HeaderCopy(k, secret, prf, scheme, salt, plain), secret, prf, scheme, plain, primaries, secondaries, texts)
  {
    CascadeMeans(scheme, primaries, secondaries, 0, texts);
    var copy := HeaderCopy(k, secret, prf, scheme, salt, plain);
    hide Keying, Cascade, Stretches, SoundScheme, Texts;
    assert copy[..64] == salt && copy[64..] == texts[|scheme.ciphers|];
  }

  /** A container in which some slot of the format holds a header of the format opens under the right secret: that
      slot opens to the header's numbers, and a search over its position succeeds. */
  lemma FormatOpens(k: Suite, bytes: seq<byte>, secret: Secret, plain: seq<byte>, positions: seq<Position>,
                    j: nat, a: nat, c: nat, primaries: seq<seq<byte>>, secondaries: seq<seq<byte>>, texts: seq<seq<byte>>)
    requires SoundSuite(k) && AllKnown(k) && MaxKey(k.schemes) > 0 && 131584 <= |bytes| <= U64_MAX
    requires j < |positions| && a < |k.prfs| && c < |k.schemes|
    requires var at := SlotStart(positions[j], |bytes|);
      Holds(k, bytes[at..at + 512], secret, k.prfs[a], k.schemes[c], plain, primaries, secondaries, texts)
    requires Marked(plain) && Checked(k.crc, plain) && Supported(plain) && plain[63] % 2 == 0 && KnownSector(plain)
    ensures Opens(k, bytes, positions[j], secret, k.prfs[a], k.schemes[c],
      Header(Big2(plain, 4), Big2(plain, 6), Big4(plain, 60),
             Geometry(Big8(plain, 36), Big8(plain, 44), Big8(plain, 52), Big4(plain, 64), Big8(plain, 28)),
             positions[j], plain[192..448]))
    ensures Searched(k, secret, bytes, positions).Good?
  {
    LargestWord();
    var at := SlotStart(positions[j], |bytes|);
    var header := Header(Big2(plain, 4), Big2(plain, 6), Big4(plain, 60),
      Geometry(Big8(plain, 36), Big8(plain, 44), Big8(plain, 52), Big4(plain, 64), Big8(plain, 28)), positions[j], plain[192..448]);
    assert PositionOffset(positions[j], |bytes|) == Some(at);
    hide Parse, SlotPlain, Searched, Holds, Big2, Big4, Big8, Checked, Marked, Supported, KnownSector;
    HeldDecrypts(k, bytes, at, secret, k.prfs[a], k.schemes[c], plain, primaries, secondaries, texts);
    ParsesExactly(k.crc, plain, positions[j]);
    var _, _ := OpensFound(k, secret, bytes, positions, j, a, c, header);
  }

  /** What the search makes of such a slot, sound or not: without the mark it goes on as after a wrong password, and
      everything that is wrong behind the mark is a diagnosis. */
  lemma FormatJudged(k: Suite, secret: Secret, position: Position, slot: seq<byte>, prf: Prf, scheme: Scheme, plain: seq<byte>,
                     primaries: seq<seq<byte>>, secondaries: seq<seq<byte>>, texts: seq<seq<byte>>)
    requires Stretches(k) && SoundScheme(scheme) && Holds(k, slot, secret, prf, scheme, plain, primaries, secondaries, texts)
    ensures |slot| == 512 && |plain| == 448
    ensures Judge(k, secret, Triple(prf, Slot(position, slot[..64], slot[64..]), scheme)) ==
      if !k.known(prf) then Broken(Internal("unknown PRF " + prf.name))
      else if !Marked(plain) then Miss
      else if !Checked(k.crc, plain) then Finding(HeaderDamaged)
      else if !Supported(plain) then Finding(VersionTooNew(Big2(plain, 6)))
      else if plain[63] % 2 == 1 then Finding(SystemVolume)
      else if !KnownSector(plain) then Finding(HeaderDamaged)
      else Valid(Header(Big2(plain, 4), Big2(plain, 6), Big4(plain, 60),
                        Geometry(Big8(plain, 36), Big8(plain, 44), Big8(plain, 52), Big4(plain, 64), Big8(plain, 28)),
                        position, plain[192..448]))
  {
    SlotDecrypts(k, slot, secret, prf, scheme, plain, primaries, secondaries, texts);
    ParsesExactly(k.crc, plain, position);
    KeyIs(k, prf, secret, slot[..64], scheme);
    hide Parse, Opened, Holds, Big2, Big4, Big8, Checked, Marked, Supported, KnownSector, Stretches, SoundScheme, Iterations;
  }

  lemma KeyIs(k: Suite, prf: Prf, secret: Secret, salt: seq<byte>, scheme: Scheme)
    requires Stretches(k)
    ensures Derive(k, prf, secret, salt, KeyBytes(scheme))
         == if k.known(prf) then Good(SlotKey(k, prf, secret, salt, scheme)) else Bad(Internal("unknown PRF " + prf.name))
  {
  }

  lemma SlotDecrypts(k: Suite, slot: seq<byte>, secret: Secret, prf: Prf, scheme: Scheme, plain: seq<byte>,
                     primaries: seq<seq<byte>>, secondaries: seq<seq<byte>>, texts: seq<seq<byte>>)
    requires Stretches(k) && SoundScheme(scheme) && Holds(k, slot, secret, prf, scheme, plain, primaries, secondaries, texts)
    ensures |slot| == 512 && |plain| == 448
    ensures Opened(scheme, SlotKey(k, prf, secret, slot[..64], scheme), slot[64..]) == plain
  {
    assert slot[0..512] == slot;
    HeldDecrypts(k, slot, 0, secret, prf, scheme, plain, primaries, secondaries, texts);
    assert slot[0..64] == slot[..64] && slot[64..512] == slot[64..];
    hide Opened, SlotKey, Texts, Stretches, SoundScheme;
  }
}
