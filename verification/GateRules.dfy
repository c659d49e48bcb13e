/**
 * The outbound gate decided in full: for every target, body and state of the settings, exactly when text is passed,
 * bypasses encryption, is refused and why, or is encrypted, and under which context's key.
 */
module GateRules {
  import opened Cryptos
  import opened ChannelReadings
  import opened Keyrings
  import opened KeyringRules
  import opened Gates

  ghost predicate IsChannel(target: string) { exists ctx :: Channel(target, ctx) }

  predicate IsFrame(body: string) { |body| >= 2 && body[0] == '\U{01}' && body[|body| - 1] == '\U{01}' }

  /** A CTCP request, which is never encrypted. */
  predicate Request(body: string) { IsFrame(body) && !(|body| > 8 && body[..8] == "\U{01}ACTION ") }

  /** A line for bots in a channel, which is not either. */
  ghost predicate ForBots(target: string, body: string) {
    IsChannel(target) && body != "" && (body[0] == '.' || body[0] == '!') && '\n' !in body
  }

  /** The settings the text falls under: those of every channel it can mean, of the peer, or of the bare name. */
  ghost predicate FallsUnder(target: string, out: Outside, ctx: string) {
    if IsChannel(target) then Channel(target, ctx)
    else if out.peer.Some? then ctx == "@" + out.peer.value else ctx == target
  }

  /** The one context whose setting is on, with a key to encrypt under; every other one it can mean is off. */
  ghost predicate OnlyOn(target: string, out: Outside, ctx: string) {
    && FallsUnder(target, out, ctx) && out.read(ctx) == Yes && (IsChannel(target) || out.peer.Some?)
    && forall other | FallsUnder(target, out, other) && other != ctx :: out.read(other) == No
  }

  lemma HasReadings(target: string)
    ensures Readings(target) != [] <==> IsChannel(target)
  {
    ReadingsAre(target);
    hide Readings, Channel;
    if Readings(target) != [] {
      assert Readings(target)[0] in Readings(target);
    }
  }

  lemma ShapesAre(target: string, body: string)
    ensures IsCtcp(body) && !IsAction(body) <==> Request(body)
    ensures Readings(target) != [] && IsBotLine(body) <==> ForBots(target, body)
    ensures Judged(target, body) <==> !Request(body) && !ForBots(target, body)
  {
    HasReadings(target);
    hide Readings, IsChannel;
    if |body| > 0 {
      assert body[|body| - 1..] == [body[|body| - 1]] && body[..1] == [body[0]];
    }
    if ACTION_PREFIX <= body && EndsWithCtcp(body) {
      assert body[..8] == ACTION_PREFIX;
      assert ACTION_PREFIX[7] == ' ' && body[7] == ' ';
    }
  }

  /** Text that is not judged: CTCP requests pass, lines for bots do with a warning unless all channels read as off. */
  lemma UnjudgedIs(c: Crypto, ring: Keyring, target: string, body: string, out: Outside)
    requires !Judged(target, body)
    ensures Gate(c, ring, target, body, out) ==
            Sent(ring,
                 if Request(body) then Pass else Bypass(exists r | r in Readings(target) :: out.read(r) != No),
                 map[])
  {
    ShapesAre(target, body);
    hide Readings, IsCtcp, IsAction, IsBotLine, Request, ForBots, SendUnder, ChooseForSending;
  }

  lemma OneOfTwo(readings: seq<string>, read: string -> Enabled)
    requires forall a, b | 0 <= a < b < |readings| :: |readings[a]| < |readings[b]|
    ensures |Only(readings, read, Yes)| > 1 <==>
            exists a, b | a in readings && b in readings && a != b :: read(a) == Yes && read(b) == Yes
  {
    OnlyOne(readings, read, Yes);
    var on := Only(readings, read, Yes);
    if |on| > 1 {
      assert on[0] in on && on[1] in on && on[0] != on[1];
    }
    forall a, b | a in readings && b in readings && a != b && read(a) == Yes && read(b) == Yes
      ensures |on| > 1
    {
      assert a in on && b in on;
    }
  }

  lemma ChoiceIs(target: string, out: Outside)
    ensures match ChooseForSending(target, out)
            case Under(ctx) =>
              && FallsUnder(target, out, ctx) && (IsChannel(target) || out.peer.Some?)
              && (out.read(ctx) == Yes ==> OnlyOn(target, out, ctx))
              && (out.read(ctx) == ReadError ==> !IsChannel(target))
              && (out.read(ctx) == No ==> forall other | FallsUnder(target, out, other) :: out.read(other) == No)
            case Decided(Refuse(KeyringRead)) => exists ctx | FallsUnder(target, out, ctx) :: out.read(ctx) == ReadError
            case Decided(Refuse(Ambiguous)) =>
              && IsChannel(target) && (forall ctx | Channel(target, ctx) :: out.read(ctx) != ReadError)
              && exists a, b | Channel(target, a) && Channel(target, b) && a != b ::
                   out.read(a) == Yes && out.read(b) == Yes
            case Decided(Refuse(NoHandle)) => !IsChannel(target) && out.peer.None? && out.read(target) == Yes
            case Decided(Pass) => !IsChannel(target) && out.peer.None? && out.read(target) == No
            case Decided(_) => false
  {
    ReadingsAre(target);
    HasReadings(target);
    hide Readings, Channel, IsChannel;
    var readings := Readings(target);
    if readings != [] {
      var errors, on := Only(readings, out.read, ReadError), Only(readings, out.read, Yes);
      OneOfTwo(readings, out.read);
      if errors != [] {
        assert errors[0] in errors;
      } else {
        assert forall r | r in readings :: r !in errors;
        assert readings[0] in readings;
        if on != [] {
          assert on[0] in on;
          assert |on| == 1 ==> forall r | r in on :: r == on[0];
        }
      }
    }
  }

  /**
   * The gate decides by the settings alone. Judged text passes exactly if every setting it falls under is off; it is
   * encrypted, under the key of that context, exactly if one is on, all others are off and it can be encrypted; it is
   * refused because a setting cannot be read exactly if one cannot, as ambiguous exactly if two are on, and for want of
   * a handle exactly if the bare name of an unknown peer is on.
   */
  lemma GateDecides(c: Crypto, ring: Keyring, target: string, body: string, out: Outside)
    requires !Request(body) && !ForBots(target, body)
    ensures var verdict := Gate(c, ring, target, body, out).verdict;
            && (verdict == Pass <==> forall ctx | FallsUnder(target, out, ctx) :: out.read(ctx) == No)
            && (verdict == Refuse(KeyringRead) <==>
                exists ctx | FallsUnder(target, out, ctx) :: out.read(ctx) == ReadError)
            && (verdict == Refuse(Ambiguous) <==>
                && IsChannel(target) && (forall ctx | Channel(target, ctx) :: out.read(ctx) != ReadError)
                && exists a, b | Channel(target, a) && Channel(target, b) && a != b ::
                     out.read(a) == Yes && out.read(b) == Yes)
            && (verdict == Refuse(NoHandle) <==> !IsChannel(target) && out.peer.None? && out.read(target) == Yes)
            && (forall ctx | OnlyOn(target, out, ctx) ::
                  verdict == match Encrypt(c, KeyOf(ring, ctx, out.spareKey), ctx, body, out)
                             case Some(lines) => Cipher(lines)
                             case None => Refuse(EncryptFailed))
            && (verdict.Cipher? || verdict == Refuse(EncryptFailed) ==> exists ctx :: OnlyOn(target, out, ctx))
            && !verdict.Bypass?
  {
    hide Gate, SendUnder, Encrypt, DistributeRekey, Judged, ChooseForSending, Channel, Request, ForBots, IsCtcp,
      IsAction, IsBotLine;
    ShapesAre(target, body);
    JudgedGoesOn(c, ring, target, body, out);
    ChoiceIs(target, out);
    match ChooseForSending(target, out)
    case Under(ctx) =>
      UnderIs(c, ring, ctx, body, out);
      assert !IsChannel(target) ==> forall other | FallsUnder(target, out, other) :: other == ctx;
    case Decided(_) =>
  }

  lemma UnderIs(c: Crypto, ring: Keyring, ctx: string, body: string, out: Outside)
    ensures SendUnder(c, ring, ctx, body, out).verdict ==
            match out.read(ctx)
            case ReadError => Refuse(KeyringRead)
            case No => Pass
            case Yes =>
              match Encrypt(c, KeyOf(ring, ctx, out.spareKey), ctx, body, out)
              case Some(lines) => Cipher(lines)
              case None => Refuse(EncryptFailed)
  {
    hide Encrypt, DistributeRekey;
  }
}
