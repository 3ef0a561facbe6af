/** The one piece of `ViewController` that consumes the view model's logic:
    `loginButtonEnableFlag` starts `false` and is bound to
    `isLoginButtonEnabled`, so it holds the latest flag emitted. Colours and
    outlets are not modelled. */
module ViewController {
  import opened LoginViewModel

  /** The value of `loginButtonEnableFlag` once `flags` have been emitted. */
  function LatestFlag(flags: seq<bool>): bool
  {
    if |flags| == 0 then false else flags[|flags| - 1]
  }

  /** Replays the flags `isLoginButtonEnabled` emits for a run of combined
      pairs into the bound button flag, one assignment per flag, as the
      binder does. */
  method ButtonEnabledAfter(combined: seq<Credentials>) returns (enabled: bool)
    ensures enabled == LatestFlag(IsLoginButtonEnabled(combined))
    ensures enabled <==> |combined| >= 2 && Validity(combined[|combined| - 1]).Valid?
  {
    var flags := IsLoginButtonEnabled(combined);
    enabled := false;
    var i := 0;
    while i < |flags|
      invariant 0 <= i <= |flags|
      invariant enabled == LatestFlag(flags[..i])
    {
      enabled := flags[i];
      i := i + 1;
    }
    assert flags[..i] == flags;
  }
}
