/** The primitives both ends rely on, taken as parameters with their laws, and
    the three things built from them: session keys, wrapped match keys and sealed
    prompts.  Nothing here claims secrecy. */
module Sealing {
  import opened Prelude
  import Base64

  /** `urandom(i, n)` is the i-th draw of n random bytes, so a run is a function
      of this tape.  `contributory` tells the public keys that X25519 accepts
      (section 6.1 of RFC 7748). */
  datatype Suite = Suite(
    pub: Bytes -> Bytes,
    contributory: Bytes -> bool,
    exchange: (Bytes, Bytes) -> Bytes,
    kdf: Bytes -> Bytes,
    seal: (Bytes, Bytes, Bytes, Bytes) -> Bytes,
    unseal: (Bytes, Bytes, Bytes, Bytes) -> Option<Bytes>,
    utf8: string -> Bytes,
    text: Bytes -> Option<string>,
    urandom: (nat, nat) -> Bytes)

  ghost predicate Lawful(p: Suite) {
    && (forall a, b :: p.exchange(a, p.pub(b)) == p.exchange(b, p.pub(a)))
    && (forall a :: |p.pub(a)| == 32 && p.contributory(p.pub(a)))
    && (forall key, nonce, plain, aad :: p.unseal(key, nonce, p.seal(key, nonce, plain, aad), aad) == Some(plain))
    && (forall s :: p.text(p.utf8(s)) == Some(s))
    && (forall i, n :: |p.urandom(i, n)| == n)
  }

  // ── the wire blob: base64(nonce ++ ciphertext) ─────────────────────────────

  const NONCE_SIZE: nat := 12

  function Pack(nonce: Bytes, cipher: Bytes): string {
    Base64.Encode(nonce + cipher)
  }

  function Unpack(blob: string): Option<(Bytes, Bytes)> {
    match Base64.Decode(blob)
    case None => None
    case Some(b) =>
      var k := if |b| < NONCE_SIZE then |b| else NONCE_SIZE;
      Some((b[..k], b[k..]))
  }

  /** Whatever the length of the ciphertext, the blob splits where it was joined. */
  lemma UnpackPack(nonce: Bytes, cipher: Bytes)
    requires |nonce| == NONCE_SIZE
    ensures Unpack(Pack(nonce, cipher)) == Some((nonce, cipher))
  {
    var b := nonce + cipher;
    Base64.RoundTrip(b);
    assert b[..NONCE_SIZE] == nonce && b[NONCE_SIZE..] == cipher;
  }

  // ── session keys ───────────────────────────────────────────────────────────

  /** Whether a received public key can be used; None-like results of `AgreedKey`
      stand for the exceptions raised on the others. */
  predicate WellFormedKey(p: Suite, peer64: string) {
    var raw := Base64.Decode(peer64);
    raw.Some? && |raw.value| == 32 && p.contributory(raw.value)
  }

  function AgreedKey(p: Suite, private: Bytes, peer64: string): Option<Bytes> {
    if WellFormedKey(p, peer64) then Some(p.kdf(p.exchange(private, Base64.Decode(peer64).value))) else None
  }

  /** The two ends of a registration derive the same session key. */
  lemma SessionAgrees(p: Suite, mine: Bytes, yours: Bytes)
    requires Lawful(p)
    ensures AgreedKey(p, mine, Base64.Encode(p.pub(yours))).Some?
    ensures AgreedKey(p, mine, Base64.Encode(p.pub(yours))) == AgreedKey(p, yours, Base64.Encode(p.pub(mine)))
  {
    Base64.RoundTrip(p.pub(mine));
    Base64.RoundTrip(p.pub(yours));
  }

  // ── match keys and prompts ─────────────────────────────────────────────────

  datatype PromptEntry = PromptEntry(delay: real, prompt: string)
  datatype SealedEntry = SealedEntry(delay: real, encryptedPrompt: string)

  function WrapKey(p: Suite, session: Bytes, matchKey: Bytes, draw: nat): string {
    var nonce := p.urandom(draw, NONCE_SIZE);
    Pack(nonce, p.seal(session, nonce, matchKey, []))
  }

  function SealPrompt(p: Suite, matchKey: Bytes, matchId: string, prompt: string, draw: nat): string {
    var nonce := p.urandom(draw, NONCE_SIZE);
    Pack(nonce, p.seal(matchKey, nonce, p.utf8(prompt), p.utf8(matchId)))
  }

  function SealEntry(p: Suite, matchKey: Bytes, matchId: string, entry: PromptEntry, draw: nat): SealedEntry {
    SealedEntry(entry.delay, SealPrompt(p, matchKey, matchId, entry.prompt, draw))
  }

  function SealSchedule(
      p: Suite, matchKey: Bytes, matchId: string, schedule: seq<PromptEntry>, draw: nat): seq<SealedEntry>
  {
    seq(|schedule|, i requires 0 <= i < |schedule| =>
      SealEntry(p, matchKey, matchId, schedule[i], draw + i))
  }

  function UnwrapKey(p: Suite, session: Bytes, wrapped: string): Option<Bytes> {
    match Unpack(wrapped)
    case None => None
    case Some((nonce, cipher)) => p.unseal(session, nonce, cipher, [])
  }

  function OpenPrompt(p: Suite, matchKey: Bytes, matchId: string, sealed: string): Option<string> {
    match Unpack(sealed)
    case None => None
    case Some((nonce, cipher)) =>
      match p.unseal(matchKey, nonce, cipher, p.utf8(matchId))
      case None => None
      case Some(plain) => p.text(plain)
  }

  lemma UnwrapUndoesWrap(p: Suite, session: Bytes, matchKey: Bytes, draw: nat)
    requires Lawful(p)
    ensures UnwrapKey(p, session, WrapKey(p, session, matchKey, draw)) == Some(matchKey)
  {
    var nonce := p.urandom(draw, NONCE_SIZE);
    UnpackPack(nonce, p.seal(session, nonce, matchKey, []));
  }

  lemma OpenUndoesSeal(p: Suite, matchKey: Bytes, matchId: string, prompt: string, draw: nat)
    requires Lawful(p)
    ensures OpenPrompt(p, matchKey, matchId, SealPrompt(p, matchKey, matchId, prompt, draw)) == Some(prompt)
  {
    var nonce := p.urandom(draw, NONCE_SIZE);
    UnpackPack(nonce, p.seal(matchKey, nonce, p.utf8(prompt), p.utf8(matchId)));
  }

  /** `sealed` opens entry by entry as `schedule`: same order, same delays, same
      prompts. */
  ghost predicate AllOpen(
      p: Suite, matchKey: Bytes, matchId: string, sealed: seq<SealedEntry>, schedule: seq<PromptEntry>)
  {
    && |sealed| == |schedule|
    && forall i | 0 <= i < |schedule| ::
         && sealed[i].delay == schedule[i].delay
         && OpenPrompt(p, matchKey, matchId, sealed[i].encryptedPrompt) == Some(schedule[i].prompt)
  }

  lemma ScheduleOpens(p: Suite, matchKey: Bytes, matchId: string, schedule: seq<PromptEntry>, draw: nat)
    requires Lawful(p)
    ensures AllOpen(p, matchKey, matchId, SealSchedule(p, matchKey, matchId, schedule, draw), schedule)
  {
    hide Lawful, OpenPrompt, SealEntry;
    var sealed := SealSchedule(p, matchKey, matchId, schedule, draw);
    forall i | 0 <= i < |schedule|
      ensures sealed[i].delay == schedule[i].delay
        && OpenPrompt(p, matchKey, matchId, sealed[i].encryptedPrompt) == Some(schedule[i].prompt)
    {
      assert sealed[i] == SealEntry(p, matchKey, matchId, schedule[i], draw + i);
      EntryOpens(p, matchKey, matchId, schedule[i], draw + i);
    }
  }

  lemma EntryOpens(p: Suite, matchKey: Bytes, matchId: string, entry: PromptEntry, draw: nat)
    requires Lawful(p)
    ensures
      var sealed := SealEntry(p, matchKey, matchId, entry, draw);
      sealed.delay == entry.delay && OpenPrompt(p, matchKey, matchId, sealed.encryptedPrompt) == Some(entry.prompt)
  {
    OpenUndoesSeal(p, matchKey, matchId, entry.prompt, draw);
  }

  /** `server` and `node` are the private keys of the two ends: the node unwraps
      under its session what the server wrapped under its own. */
  lemma WrappedUnwraps(p: Suite, server: Bytes, node: Bytes, key: Bytes, draw: nat)
    requires Lawful(p)
    ensures
      var session := AgreedKey(p, node, Base64.Encode(p.pub(server)));
      && session.Some? && session == AgreedKey(p, server, Base64.Encode(p.pub(node)))
      && UnwrapKey(p, session.value, WrapKey(p, session.value, key, draw)) == Some(key)
  {
    SessionAgrees(p, node, server);
    UnwrapUndoesWrap(p, AgreedKey(p, node, Base64.Encode(p.pub(server))).value, key, draw);
  }

  // ── what is on the wire, in terms of the primitives ────────────────────────

  /** A wrapped key is a nonce of twelve bytes and the key sealed under the session
      with it and nothing else; a sealed prompt is one and the prompt's text sealed
      under the match key, with the match id as associated data. */
  lemma OnTheWire(p: Suite, session: Bytes, matchKey: Bytes, matchId: string, prompt: string, draw: nat)
    requires Lawful(p)
    ensures
      var nonce := p.urandom(draw, 12);
      && |nonce| == 12
      && Base64.Decode(WrapKey(p, session, matchKey, draw)) == Some(nonce + p.seal(session, nonce, matchKey, []))
      && Base64.Decode(SealPrompt(p, matchKey, matchId, prompt, draw))
         == Some(nonce + p.seal(matchKey, nonce, p.utf8(prompt), p.utf8(matchId)))
  {
    var nonce := p.urandom(draw, 12);
    Base64.RoundTrip(nonce + p.seal(session, nonce, matchKey, []));
    Base64.RoundTrip(nonce + p.seal(matchKey, nonce, p.utf8(prompt), p.utf8(matchId)));
  }

  /** What authenticated encryption adds: whatever opens was sealed with the same
      associated data. */
  ghost predicate Authentic(p: Suite) {
    forall key, nonce, plain, aad, other ::
      p.unseal(key, nonce, p.seal(key, nonce, plain, aad), other).Some? ==> other == aad
  }

  /** A prompt sealed for one match opens for no other, even under the same key. */
  lemma OpensForItsMatchOnly(p: Suite, matchKey: Bytes, matchId: string, other: string, prompt: string, draw: nat)
    requires Lawful(p) && Authentic(p)
    ensures OpenPrompt(p, matchKey, other, SealPrompt(p, matchKey, matchId, prompt, draw)).Some? <==> other == matchId
  {
    OpenUndoesSeal(p, matchKey, matchId, prompt, draw);
    var nonce := p.urandom(draw, NONCE_SIZE);
    UnpackPack(nonce, p.seal(matchKey, nonce, p.utf8(prompt), p.utf8(matchId)));
    assert p.utf8(other) == p.utf8(matchId) ==> p.text(p.utf8(other)) == p.text(p.utf8(matchId));
  }
}
