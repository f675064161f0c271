/**
 * The command interpreter of the receive callback: two `strstr` tests on the
 * request text, "GET /on" first, then "GET /off" (button_web_server.c:42-49).
 */
module Command {
  import opened CString

  const GetOn := "GET /on"
  const GetOff := "GET /off"

  /**
   * The LED state after the if / else-if over the view of the request:
   * on when "GET /on" occurs, else off when "GET /off" occurs, else unchanged.
   */
  function Interpret(led: bool, view: seq<char>): bool
  {
    if Occurs(view, GetOn) then true
    else if Occurs(view, GetOff) then false
    else led
  }

  /** "GET /on" anywhere in the request turns the LED on, whatever surrounds it (including "GET /off"). */
  lemma OnAnywhere(led: bool, pre: seq<char>, post: seq<char>)
    ensures Interpret(led, pre + GetOn + post)
  {
    OccursInside(pre, GetOn, post);
  }

  /** "GET /off" anywhere turns the LED off, provided "GET /on" occurs nowhere. */
  lemma OffAnywhere(led: bool, pre: seq<char>, post: seq<char>)
    requires !Occurs(pre + GetOff + post, GetOn)
    ensures !Interpret(led, pre + GetOff + post)
  {
    OccursInside(pre, GetOff, post);
  }

  /** A request with neither command keeps the LED as it was. */
  lemma NoCommandKeepsLed(led: bool, view: seq<char>)
    requires !Occurs(view, GetOn) && !Occurs(view, GetOff)
    ensures Interpret(led, view) == led
  {
  }

  /** Text without a 'G' holds no command at all. */
  lemma {:induction false} NoCommandWithoutG(text: seq<char>)
    requires 'G' !in text
    ensures !Occurs(text, GetOn) && !Occurs(text, GetOff)
  {
    forall i | 0 <= i <= |text| - |GetOn| ensures !MatchesAt(text, GetOn, i) {
      assert text[i..i + |GetOn|][0] == text[i];
    }
    forall i | 0 <= i <= |text| - |GetOff| ensures !MatchesAt(text, GetOff, i) {
      assert text[i..i + |GetOff|][0] == text[i];
    }
  }

  /**
   * A request starting with "GET /off" contains "GET /on" only after that
   * prefix: "GET /on" cannot overlap "GET /off", so such a request turns the
   * LED off exactly when the rest does not say "GET /on".
   */
  lemma {:induction false} OffRequestLine(led: bool, rest: seq<char>)
    ensures Occurs(GetOff + rest, GetOn) <==> Occurs(rest, GetOn)
    ensures !Occurs(rest, GetOn) ==> !Interpret(led, GetOff + rest)
  {
    var text := GetOff + rest;
    if Occurs(text, GetOn) {
      var i :| 0 <= i <= |text| - |GetOn| && MatchesAt(text, GetOn, i);
      assert text[i] == GetOn[0] == 'G' by { assert text[i..i + |GetOn|][0] == text[i]; }
      assert text[i + 6] == GetOn[6] == 'n' by { assert text[i..i + |GetOn|][6] == text[i + 6]; }
      assert forall k :: 0 <= k < |GetOff| ==> text[k] == GetOff[k];
      if i < |GetOff| {
        assert false;
      }
      assert rest[i - |GetOff|..i - |GetOff| + |GetOn|] == text[i..i + |GetOn|];
      assert MatchesAt(rest, GetOn, i - |GetOff|);
    }
    if Occurs(rest, GetOn) {
      var j :| 0 <= j <= |rest| - |GetOn| && MatchesAt(rest, GetOn, j);
      assert text[j + |GetOff|..j + |GetOff| + |GetOn|] == rest[j..j + |GetOn|];
      assert MatchesAt(text, GetOn, j + |GetOff|);
    }
    OccursInside([], GetOff, rest);
    assert [] + GetOff + rest == text;
  }

  /**
   * The interpreter reads the request as a C string: nothing after the first
   * NUL byte can issue a command.
   */
  lemma NulHidesRest(led: bool, before: seq<char>, after: seq<char>)
    ensures Interpret(led, CView(before + [NUL] + after)) == Interpret(led, CView(before))
  {
    CViewStopsAtNul(before, after);
  }

  /** A command that follows a NUL is ignored. */
  lemma CommandAfterNulIgnored(led: bool, before: seq<char>)
    requires NUL !in before && !Occurs(before, GetOn) && !Occurs(before, GetOff)
    ensures Interpret(led, CView(before + [NUL] + GetOn)) == led
  {
    NulHidesRest(led, before, GetOn);
    CViewOfPlain(before);
  }
}
