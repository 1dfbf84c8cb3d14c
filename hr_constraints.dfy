/** The stabiliser between the heart-rate estimator and the displayed heart
    rate. A candidate outside 40..200 bpm is ignored (or clamped when nothing
    is displayed yet); the first valid candidate is taken as it is; a change of
    at most 15 bpm is followed by at most 5 bpm per update; a larger jump is
    held back until a second candidate within 5 bpm of it arrives within 15
    seconds, and is then followed by at most 10 bpm. Time is in ticks of 100 ns. */
module HrConstraints {
  import opened Numeric
  import opened Wrappers

  const HrMin: int := 40
  const HrMax: int := 200
  const MaxStep: int := 5
  const OutlierThreshold: int := 15
  /** 15 seconds in ticks. */
  const PendingTimeout: int := 150_000_000

  /** A large jump waiting for confirmation, and when it was seen. */
  datatype Pending = Pending(candidate: int, at: int)

  /** The value to display and the pending jump after one update. */
  datatype Outcome = Outcome(value: int, pending: Option<Pending>)

  /** The pending jump is confirmed by `candidate` at time `now`. */
  predicate Confirms(pending: Option<Pending>, candidate: int, now: int)
  {
    && pending.Some?
    && now - pending.value.at <= PendingTimeout
    && Abs(candidate - pending.value.candidate) <= MaxStep
  }

  /** One step from hr towards candidate, of at most `limit` bpm. */
  function Toward(hr: int, candidate: int, limit: int): int
  {
    var delta := candidate - hr;
    hr + Sign(delta) * Min(Abs(delta), limit)
  }

  /** The new displayed value for a candidate, given the displayed value hr
      (0 or less: nothing displayed yet), the pending jump and the time. */
  function Constrain(candidate: int, hr: int, pending: Option<Pending>, now: int): Outcome
  {
    if candidate < HrMin || candidate > HrMax then
      Outcome(if hr > 0 then hr else Clamp(candidate, HrMin, HrMax), pending)
    else if hr <= 0 then
      Outcome(candidate, None)
    else if Abs(candidate - hr) <= OutlierThreshold then
      Outcome(Toward(hr, candidate, MaxStep), pending)
    else if Confirms(pending, candidate, now) then
      Outcome(Toward(hr, candidate, 2 * MaxStep), None)
    else
      Outcome(hr, Some(Pending(candidate, now)))
  }

  /** A candidate outside 40..200 bpm leaves a displayed value and the
      pending jump alone; with nothing displayed it is clamped into the band. */
  lemma {:induction false} OutOfBandIgnored(candidate: int, hr: int, pending: Option<Pending>, now: int)
    requires candidate < HrMin || candidate > HrMax
    ensures var o := Constrain(candidate, hr, pending, now);
            && o.pending == pending
            && (hr > 0 ==> o.value == hr)
            && (hr <= 0 ==> o.value == if candidate < HrMin then HrMin else HrMax)
  {
  }

  /** A displayed value in the band (or none yet) stays in the band. */
  lemma {:induction false} ConstrainInBand(candidate: int, hr: int, pending: Option<Pending>, now: int)
    requires hr <= 0 || HrMin <= hr <= HrMax
    ensures HrMin <= Constrain(candidate, hr, pending, now).value <= HrMax
  {
  }

  /** A step toward the candidate never passes it and moves by at most the limit. */
  lemma {:induction false} TowardBetween(hr: int, candidate: int, limit: int)
    requires limit >= 0
    ensures var r := Toward(hr, candidate, limit);
            && Min(hr, candidate) <= r <= Max(hr, candidate)
            && Abs(r - hr) == Min(Abs(candidate - hr), limit)
  {
  }

  /** With a value displayed and a valid candidate, the new value lies between
      the old one and the candidate, at most 10 bpm from the old one. */
  lemma {:induction false} NoOvershoot(candidate: int, hr: int, pending: Option<Pending>, now: int)
    requires hr > 0 && HrMin <= candidate <= HrMax
    ensures var r := Constrain(candidate, hr, pending, now).value;
            && Min(hr, candidate) <= r <= Max(hr, candidate)
            && Abs(r - hr) <= 2 * MaxStep
  {
    TowardBetween(hr, candidate, MaxStep);
    TowardBetween(hr, candidate, 2 * MaxStep);
  }

  /** A change of at most 15 bpm is followed by at most 5 bpm, and the
      pending jump is left as it was. */
  lemma {:induction false} SmallChange(candidate: int, hr: int, pending: Option<Pending>, now: int)
    requires hr > 0 && HrMin <= candidate <= HrMax
    requires Abs(candidate - hr) <= OutlierThreshold
    ensures var o := Constrain(candidate, hr, pending, now);
            && Abs(o.value - hr) == Min(Abs(candidate - hr), MaxStep)
            && o.pending == pending
  {
    TowardBetween(hr, candidate, MaxStep);
  }

  /** A larger jump without confirmation keeps the value and becomes the
      pending jump. */
  lemma {:induction false} JumpHeld(candidate: int, hr: int, pending: Option<Pending>, now: int)
    requires hr > 0 && HrMin <= candidate <= HrMax
    requires Abs(candidate - hr) > OutlierThreshold && !Confirms(pending, candidate, now)
    ensures Constrain(candidate, hr, pending, now) == Outcome(hr, Some(Pending(candidate, now)))
  {
  }

  /** A large jump c1 seen at t1 and a second candidate c2 within 5 bpm of it
      at most 15 seconds later, itself still a large jump: the first time the
      value is held and c1 becomes pending, the second time the value moves
      10 bpm toward c2 and the pending jump is cleared. */
  lemma {:induction false} JumpConfirmed(c1: int, c2: int, hr: int, pending: Option<Pending>, t1: int, t2: int)
    requires hr > 0 && HrMin <= c1 <= HrMax && HrMin <= c2 <= HrMax
    requires Abs(c1 - hr) > OutlierThreshold && !Confirms(pending, c1, t1)
    requires Abs(c2 - c1) <= MaxStep && Abs(c2 - hr) > OutlierThreshold
    requires t2 - t1 <= PendingTimeout
    ensures var o1 := Constrain(c1, hr, pending, t1);
            var o2 := Constrain(c2, o1.value, o1.pending, t2);
            && o1 == Outcome(hr, Some(Pending(c1, t1)))
            && o2 == Outcome(hr + Sign(c2 - hr) * 2 * MaxStep, None)
  {
    JumpHeld(c1, hr, pending, t1);
  }

  /** For a large jump, both directions of the confirmation rule: the value
      moves 10 bpm and the pending jump is cleared exactly when a pending jump
      exists, is at most 15 seconds old and lies within 5 bpm of the candidate;
      otherwise the value is held and the candidate replaces the pending jump. */
  lemma {:induction false} JumpConfirmedExactly(candidate: int, hr: int, pending: Option<Pending>, now: int)
    requires hr > 0 && HrMin <= candidate <= HrMax
    requires Abs(candidate - hr) > OutlierThreshold
    ensures var o := Constrain(candidate, hr, pending, now);
            var confirmed := pending.Some? && now - pending.value.at <= PendingTimeout
                             && Abs(candidate - pending.value.candidate) <= MaxStep;
            && (confirmed <==> o == Outcome(hr + Sign(candidate - hr) * 2 * MaxStep, None))
            && (!confirmed <==> o == Outcome(hr, Some(Pending(candidate, now))))
  {
  }

  /** The first valid candidate is displayed as it is. */
  lemma {:induction false} FirstReading(candidate: int, hr: int, pending: Option<Pending>, now: int)
    requires hr <= 0 && HrMin <= candidate <= HrMax
    ensures Constrain(candidate, hr, pending, now) == Outcome(candidate, None)
  {
  }
}
