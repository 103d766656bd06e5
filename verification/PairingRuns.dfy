/** What a whole life of one pairing offer guarantees. */
module PairingRuns {
  import opened Wrappers
  import opened AuditLog
  import opened Identity
  import opened NoiseFraming
  import opened NoiseSession
  import opened NoiseChannel
  import opened PairingFlow

  /** One call of the responder with everything the peer, the clock and the disk decide. */
  datatype Call = Call(nowMs: int, handshake: Handshake, confirm: Confirmation, acceptLands: bool, recorded: bool)

  function OfferAfter(crypto: Crypto, offer: Offer, calls: seq<Call>): Offer {
    if calls == [] then offer
    else
      var last := calls[|calls| - 1];
      Attempt(crypto, OfferAfter(crypto, offer, calls[..|calls| - 1]), last.nowMs, last.handshake, last.confirm,
              last.acceptLands).1
  }

  function VerdictOf(crypto: Crypto, offer: Offer, calls: seq<Call>, i: nat): Result<PinnedPeer, Reason>
    requires i < |calls|
  {
    Attempt(crypto, OfferAfter(crypto, offer, calls[..i]), calls[i].nowMs, calls[i].handshake, calls[i].confirm,
            calls[i].acceptLands).0
  }

  /** What the `i`-th call returns. */
  function ResultOf(crypto: Crypto, offer: Offer, calls: seq<Call>, i: nat): Result<PinnedPeer, PairingError>
    requires i < |calls|
  {
    Outcome(VerdictOf(crypto, offer, calls, i), calls[i].recorded)
  }

  /** The audit log after the calls. */
  function LogAfter(crypto: Crypto, offer: Offer, calls: seq<Call>): seq<AuditEvent> {
    if calls == [] then []
    else
      var n := |calls| - 1;
      assert calls[..n][..n] == calls[..n];
      LogAfter(crypto, offer, calls[..n])
      + if calls[n].recorded then [Event(crypto, VerdictOf(crypto, offer, calls, n))] else []
  }

  /** The last step at which the attempt could still have been refused without spending the offer. */
  predicate Confirms(crypto: Crypto, offer: Offer, call: Call) {
    && !offer.consumed && !IsExpired(offer, call.nowMs)
    && call.handshake.Ok? && PinFromHandshake(crypto, call.handshake.value).Ok?
    && call.confirm == Ok(Some(CONFIRM_TAG))
  }

  lemma AttemptSpends(crypto: Crypto, offer: Offer, call: Call)
    ensures Attempt(crypto, offer, call.nowMs, call.handshake, call.confirm, call.acceptLands).1
         == offer.(consumed := offer.consumed || Confirms(crypto, offer, call))
  {
  }

  lemma {:induction false} OnceConsumed(crypto: Crypto, offer: Offer, calls: seq<Call>, i: nat, j: nat)
    requires i < j <= |calls| && Confirms(crypto, OfferAfter(crypto, offer, calls[..i]), calls[i])
    ensures OfferAfter(crypto, offer, calls[..j]).consumed
    decreases j
  {
    assert calls[..j][..j - 1] == calls[..j - 1];
    if j > i + 1 {
      OnceConsumed(crypto, offer, calls, i, j - 1);
    }
  }

  /** The offer's time box is fixed, and it is spent exactly when some call confirmed. */
  lemma {:induction false} SpentByAConfirmation(crypto: Crypto, offer: Offer, calls: seq<Call>)
    requires !offer.consumed
    ensures var after := OfferAfter(crypto, offer, calls);
      && after == offer.(consumed := after.consumed)
      && (after.consumed <==> Confirmed(crypto, offer, calls))
  {
    if calls != [] {
      var n := |calls| - 1;
      var before := OfferAfter(crypto, offer, calls[..n]);
      AttemptSpends(crypto, before, calls[n]);
      assert OfferAfter(crypto, offer, calls) == before.(consumed := before.consumed || Confirms(crypto, before, calls[n]));
      hide OfferAfter;
      hide Attempt;
      hide Confirms;
      SpentByAConfirmation(crypto, offer, calls[..n]);
      ConfirmationAmong(crypto, offer, calls);
    }
  }

  /** Some call confirmed. */
  ghost predicate Confirmed(crypto: Crypto, offer: Offer, calls: seq<Call>) {
    exists i :: 0 <= i < |calls| && Confirms(crypto, OfferAfter(crypto, offer, calls[..i]), calls[i])
  }

  lemma ConfirmationAmong(crypto: Crypto, offer: Offer, calls: seq<Call>)
    requires calls != []
    ensures var n := |calls| - 1;
      Confirmed(crypto, offer, calls)
      <==> Confirmed(crypto, offer, calls[..n]) || Confirms(crypto, OfferAfter(crypto, offer, calls[..n]), calls[n])
  {
    hide OfferAfter;
    hide Confirms;
    var n := |calls| - 1;
    forall i | 0 <= i < n ensures calls[..n][..i] == calls[..i] {}
    if Confirmed(crypto, offer, calls[..n]) {
      var i :| 0 <= i < n && Confirms(crypto, OfferAfter(crypto, offer, calls[..n][..i]), calls[..n][i]);
      assert Confirms(crypto, OfferAfter(crypto, offer, calls[..i]), calls[i]);
    }
  }

  /** A call succeeds exactly when it confirmed, its acceptance went out and its record was written; the
      pin it returns verifies and carries the static the handshake authenticated. */
  lemma SucceedsExactlyWhen(crypto: Crypto, offer: Offer, calls: seq<Call>, i: nat)
    requires i < |calls|
    ensures var r := ResultOf(crypto, offer, calls, i);
      && (r.Ok? <==> Confirms(crypto, OfferAfter(crypto, offer, calls[..i]), calls[i])
                     && calls[i].acceptLands && calls[i].recorded)
      && (r.Ok? ==> Verify(crypto, r.value).Ok? && r.value.noiseStaticPub == calls[i].handshake.value.remoteStatic)
  {
  }

  /** At most one call on an offer succeeds, and after a confirmation every later call is a replay, even
      when the confirmed call itself failed at the acceptance or at its audit record. */
  lemma OfferIsSingleUse(crypto: Crypto, offer: Offer, calls: seq<Call>, i: nat, j: nat)
    requires i < j < |calls| && Confirms(crypto, OfferAfter(crypto, offer, calls[..i]), calls[i])
    ensures ResultOf(crypto, offer, calls, j) == Err(Refused(Replayed))
  {
    OnceConsumed(crypto, offer, calls, i, j);
  }

  lemma AtMostOneSuccess(crypto: Crypto, offer: Offer, calls: seq<Call>, i: nat, j: nat)
    requires i < |calls| && j < |calls|
    requires ResultOf(crypto, offer, calls, i).Ok? && ResultOf(crypto, offer, calls, j).Ok?
    ensures i == j
  {
    SucceedsExactlyWhen(crypto, offer, calls, i);
    SucceedsExactlyWhen(crypto, offer, calls, j);
    if i < j {
      OfferIsSingleUse(crypto, offer, calls, i, j);
    } else if j < i {
      OfferIsSingleUse(crypto, offer, calls, j, i);
    }
  }

  /** While log writes succeed there is one record a call, a success exactly for the call that succeeded. */
  lemma {:induction false} OneRecordACall(crypto: Crypto, offer: Offer, calls: seq<Call>)
    requires forall call <- calls :: call.recorded
    ensures |LogAfter(crypto, offer, calls)| == |calls|
    ensures forall i :: 0 <= i < |calls| ==>
              (LogAfter(crypto, offer, calls)[i].PairingSucceeded? <==> ResultOf(crypto, offer, calls, i).Ok?)
  {
    if calls != [] {
      var n := |calls| - 1;
      assert calls[n] in calls;
      OneRecordACall(crypto, offer, calls[..n]);
      forall i | 0 <= i < n
        ensures LogAfter(crypto, offer, calls)[i] == LogAfter(crypto, offer, calls[..n])[i]
        ensures ResultOf(crypto, offer, calls, i) == ResultOf(crypto, offer, calls[..n], i)
      {
        assert calls[..n][..i] == calls[..i];
      }
    }
  }

  // ---- Who can confirm -------------------------------------------------------

  /** Under the ideal cipher, a confirmation means the holder of the session's keys sent it first: a peer
      that sealed nothing under them, for want of the pairing secret, cannot spend the offer. */
  lemma {:induction false} OnlyAHolderConfirms(crypto: Crypto, offer: Offer, nowMs: int, agreed: Agreement, stream: Bytes, acceptLands: bool,
                            messages: seq<Bytes>)
    requires var v := Converse(messages);
             GrowsByTag(agreed.rx) && OpensWhatWasSealed(agreed.rx, v.sent) && Unforgeable(agreed.rx, v.sent)
    requires !offer.consumed
    ensures var confirm := RecvFrom(agreed.rx, DEFAULT_MAX_MESSAGE_LEN, 0, stream, 0, []).result;
      Attempt(crypto, offer, nowMs, Ok(agreed), confirm, acceptLands).1.consumed
      ==> messages != [] && messages[0] == CONFIRM_TAG
  {
    hide Attempt;
    hide RecvFrom;
    hide Converse;
    hide GrowsByTag;
    hide OpensWhatWasSealed;
    hide Unforgeable;
    var confirm := RecvFrom(agreed.rx, DEFAULT_MAX_MESSAGE_LEN, 0, stream, 0, []).result;
    if Attempt(crypto, offer, nowMs, Ok(agreed), confirm, acceptLands).1.consumed {
      ConfirmIsFirst(crypto, offer, nowMs, agreed, confirm, acceptLands);
    }
    if confirm == Ok(Some(CONFIRM_TAG)) {
      FirstOfAll(agreed.rx, stream, CONFIRM_TAG);
      hide RecvAll;
      Integrity(agreed.rx, messages, DEFAULT_MAX_MESSAGE_LEN, stream);
    }
  }

  lemma ConfirmIsFirst(crypto: Crypto, offer: Offer, nowMs: int, agreed: Agreement, confirm: Confirmation, acceptLands: bool)
    requires !offer.consumed && Attempt(crypto, offer, nowMs, Ok(agreed), confirm, acceptLands).1.consumed
    ensures confirm == Ok(Some(CONFIRM_TAG))
  {
  }

  lemma FirstOfAll(c: Cipher, stream: Bytes, tag: Bytes)
    requires RecvFrom(c, DEFAULT_MAX_MESSAGE_LEN, 0, stream, 0, []).result == Ok(Some(tag))
    ensures var t := RecvAll(c, DEFAULT_MAX_MESSAGE_LEN, 0, stream); t.messages != [] && t.messages[0] == tag
  {
    hide RecvFrom;
  }
}
