/** `LoginViewModel`: the button-enabled flags it derives from the text
    fields, and the relays it keeps. Rx streams become finite sequences of the
    values they carry, in emission order. Every inner observable here (`just`,
    `error`) emits synchronously and finishes at once, so `flatMap` is plain
    concatenation, and `materialize` turns an error into an ordinary event, so
    the outer stream never fails. */
module LoginViewModel {
  import opened Wrappers
  import opened LoginModel

  /** One value of `combineLatest(emailText, passwordText)`. */
  datatype Credentials = Credentials(email: Option<string>, password: Option<string>)

  /** Rx's `Event<Void>`, as produced by `materialize`. */
  datatype Event = Next | Completed | Error(error: LoginError)

  function Validity(c: Credentials): Validation
  {
    Validate(c.email, c.password)
  }

  /** `validate(...).materialize()`: `just(())` becomes a next and a completion,
      `error(e)` becomes one error event. */
  function Materialize(v: Validation): (evs: seq<Event>)
    ensures |evs| == if v.Valid? then 2 else 1
    ensures forall i :: 0 <= i < |evs| - 1 ==> evs[i].Next?
    ensures evs[|evs| - 1].Completed? <==> v.Valid?
    ensures v.Invalid? ==> evs[|evs| - 1] == Error(v.reason)
  {
    match v
    case Valid => [Next, Completed]
    case Invalid(e) => [Error(e)]
  }

  /** The materialised events of one combined pair. */
  function PairEvents(c: Credentials): seq<Event>
  {
    Materialize(Validity(c))
  }

  /** `flatMap { validate(...).materialize() }` over a sequence of pairs. */
  function FlatEvents(pairs: seq<Credentials>): seq<Event>
    decreases |pairs|
  {
    if |pairs| == 0 then [] else PairEvents(pairs[0]) + FlatEvents(pairs[1..])
  }

  /** `event`: the combined pairs with the first one skipped (`skip(1)`), then
      flattened. Fewer than two pairs produce no event; otherwise the stream
      ends with the latest pair's completion when it validates, and with its
      validation error when it does not. */
  function ValidityEvents(combined: seq<Credentials>): (evs: seq<Event>)
    ensures |combined| <= 1 ==> evs == []
    ensures |combined| >= 2 ==>
              var v := Validity(combined[|combined| - 1]);
              && |evs| > 0
              && (evs[|evs| - 1].Completed? <==> v.Valid?)
              && (v.Invalid? ==> evs[|evs| - 1] == Error(v.reason))
  {
    if |combined| == 0 then []
    else if |combined| == 1 then
      assert combined[1..] == [];
      FlatEvents(combined[1..])
    else
      var later := combined[1..];
      var c := later[|later| - 1];
      assert later == later[..|later| - 1] + [c];
      FlatEventsAppend(later[..|later| - 1], [c]);
      assert FlatEvents([c]) == PairEvents(c) + FlatEvents([]);
      FlatEvents(later)
  }

  /** The switch inside `isLoginButtonEnabled`. */
  function ButtonFlag(e: Event): (enabled: bool)
    ensures enabled <==> !e.Error?
  {
    match e
    case Next => true
    case Error(_) => false
    case Completed => true
  }

  /** `flatMap { .just(flag) }`: one flag per event, in order. */
  function ButtonFlags(events: seq<Event>): (flags: seq<bool>)
    ensures |flags| == |events|
    ensures forall i :: 0 <= i < |events| ==> (flags[i] <==> !events[i].Error?)
  {
    seq(|events|, i requires 0 <= i < |events| => ButtonFlag(events[i]))
  }

  /** `isLoginButtonEnabled`, as the flags it emits for a run of combined
      pairs: nothing for the first pair, and a last flag that says whether the
      latest pair validates. */
  function IsLoginButtonEnabled(combined: seq<Credentials>): (flags: seq<bool>)
    ensures |combined| <= 1 ==> flags == []
    ensures |combined| >= 2 ==>
              |flags| > 0 && (flags[|flags| - 1] <==> Validity(combined[|combined| - 1]).Valid?)
  {
    ButtonFlags(ValidityEvents(combined))
  }

  /** Every flag one pair produces is that pair's validity: an error gives
      `false`, a success gives `true` for its next and for its completion. */
  lemma PairFlagsAreValidity(c: Credentials)
    ensures |ButtonFlags(PairEvents(c))| > 0
    ensures forall i :: 0 <= i < |ButtonFlags(PairEvents(c))| ==>
              (ButtonFlags(PairEvents(c))[i] <==> Validity(c).Valid?)
  {
  }

  lemma {:induction false} FlatEventsAppend(a: seq<Credentials>, b: seq<Credentials>)
    ensures FlatEvents(a + b) == FlatEvents(a) + FlatEvents(b)
    decreases |a|
  {
    if |a| == 0 {
      assert a + b == b;
    } else {
      assert (a + b)[1..] == a[1..] + b;
      FlatEventsAppend(a[1..], b);
    }
  }

  lemma ButtonFlagsAppend(a: seq<Event>, b: seq<Event>)
    ensures ButtonFlags(a + b) == ButtonFlags(a) + ButtonFlags(b)
  {
  }

  /** The first combined pair does not influence the flags of later ones. */
  lemma FirstPairIsSilent(first: Credentials, other: Credentials, rest: seq<Credentials>)
    ensures IsLoginButtonEnabled([first] + rest) == IsLoginButtonEnabled([other] + rest)
  {
  }

  /** Each later pair appends, after everything emitted so far, a non-empty
      run of flags that all equal that pair's validity. */
  lemma LaterPairAppendsItsValidity(combined: seq<Credentials>, c: Credentials)
    requires |combined| >= 1
    ensures var before := IsLoginButtonEnabled(combined);
            var after := IsLoginButtonEnabled(combined + [c]);
            && |after| > |before|
            && after[..|before|] == before
            && forall i :: |before| <= i < |after| ==> (after[i] <==> Validity(c).Valid?)
  {
    assert (combined + [c])[1..] == combined[1..] + [c];
    FlatEventsAppend(combined[1..], [c]);
    assert FlatEvents([c]) == PairEvents(c) + FlatEvents([]);
    ButtonFlagsAppend(FlatEvents(combined[1..]), PairEvents(c));
    PairFlagsAreValidity(c);
  }

  /** The relays `LoginViewModel` holds. */
  datatype Relays = Relays(mailText: Option<string>, passwordText: Option<string>, loading: bool)

  /** Both text relays start as the empty string, and `loadingState` as `false`. */
  const InitialRelays := Relays(Some(""), Some(""), false)

  /** `setText(mailText:passwordText:)`. */
  function SetText(s: Relays, mailText: Option<string>, passwordText: Option<string>): (s': Relays)
    ensures s'.mailText == mailText && s'.passwordText == passwordText
    ensures s'.loading == s.loading
  {
    s.(mailText := mailText, passwordText := passwordText)
  }

  /** A second `setText` overwrites the first completely. */
  lemma SetTextLastWins(s: Relays, m1: Option<string>, p1: Option<string>, m2: Option<string>, p2: Option<string>)
    ensures SetText(SetText(s, m1, p1), m2, p2) == SetText(s, m2, p2)
  {
  }

  /** The subscription in `setup` that calls `setText` on every combined pair
      (this one does not skip the first). Afterwards the relays hold the latest
      pair, and the loading flag is untouched. */
  function TrackText(s: Relays, combined: seq<Credentials>): (s': Relays)
    ensures s'.loading == s.loading
    ensures |combined| == 0 ==> s' == s
    ensures |combined| > 0 ==>
              s'.mailText == combined[|combined| - 1].email &&
              s'.passwordText == combined[|combined| - 1].password
    decreases |combined|
  {
    if |combined| == 0 then s
    else TrackText(SetText(s, combined[0].email, combined[0].password), combined[1..])
  }

  /** `isLoading`: nothing in the view model writes `loadingState`, so from the
      initial relays it reads `false` after any run of text edits. */
  lemma LoadingStaysFalse(combined: seq<Credentials>)
    ensures !TrackText(InitialRelays, combined).loading
  {
  }
}
