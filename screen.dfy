/**
 * The password screen of App.tsx: six state cells (the password, whether one
 * has been generated, the four class toggles), four checkbox events, the
 * generate event (reached through the validated form submit) and the reset
 * event. The pure functions below give the abstract transition of each event;
 * the class PasswordScreen updates its fields in place and is proved to follow
 * them.
 */
module Screen {
  import opened Wrappers
  import opened Generator
  import PasswordSchema

  datatype ScreenState = ScreenState(password: string, isGeneratedPassword: bool, toggles: Toggles)

  /** The initial `useState` values: no password, only lower case switched on. */
  const Initial: ScreenState := ScreenState("", false, Toggles(false, true, false, false))

  /** Pressing the checkbox of class k. */
  function Pressed(s: ScreenState, k: CharClass): ScreenState {
    s.(toggles := s.toggles.Flip(k))
  }

  /** The reset button: the password and its flag are cleared, the toggles stay. */
  function Cleared(s: ScreenState): ScreenState {
    s.(password := "", isGeneratedPassword := false)
  }

  /** generatePasswordString: nothing happens on an empty alphabet, else the new password is stored. */
  function Generated(s: ScreenState, passwordLength: real, draws: seq<int>): ScreenState
    requires |draws| >= Iterations(passwordLength)
  {
    var charList := Alphabet(s.toggles);
    if charList == "" then s
    else s.(password := CreatedPassword(charList, passwordLength, draws), isGeneratedPassword := true)
  }

  /** The form submit: generation runs only when the schema accepts the length. */
  function Submitted(s: ScreenState, passwordLength: Option<real>, draws: seq<int>): ScreenState
    requires passwordLength.Some? ==> |draws| >= Iterations(passwordLength.value)
  {
    if PasswordSchema.Validate(passwordLength).Accepted? then Generated(s, passwordLength.value, draws) else s
  }

  /** A press flips exactly its own toggle and leaves the password and its flag alone. */
  lemma PressFlipsOnlyItsToggle(s: ScreenState, k: CharClass, j: CharClass)
    ensures Pressed(s, k).toggles.On(j) == (if j == k then !s.toggles.On(j) else s.toggles.On(j))
    ensures Pressed(s, k).password == s.password
    ensures Pressed(s, k).isGeneratedPassword == s.isGeneratedPassword
  {
  }

  /** Pressing the same checkbox twice restores the state. */
  lemma PressTwiceRestores(s: ScreenState, k: CharClass)
    ensures Pressed(Pressed(s, k), k) == s
  {
  }

  /** Reset leaves no password, keeps the toggles, and a second reset changes nothing. */
  lemma ResetIdempotent(s: ScreenState)
    ensures Cleared(s).password == "" && !Cleared(s).isGeneratedPassword
    ensures Cleared(s).toggles == s.toggles
    ensures Cleared(Cleared(s)) == Cleared(s)
  {
  }

  /** With every toggle off, generation changes nothing. */
  lemma GenerateWithoutClassesIsNoop(s: ScreenState, passwordLength: real, draws: seq<int>)
    requires |draws| >= Iterations(passwordLength)
    requires !s.toggles.uppercase && !s.toggles.lowercase && !s.toggles.numbers && !s.toggles.symbols
    ensures Generated(s, passwordLength, draws) == s
  {
    AlphabetEmpty(s.toggles);
  }

  /**
   * With some toggle on, generation stores a password of at most
   * Iterations characters, all from the switched-on classes, sets the flag,
   * and keeps the toggles.
   */
  lemma {:induction false} GenerateStoresPassword(s: ScreenState, passwordLength: real, draws: seq<int>)
    requires DrawsFit(Alphabet(s.toggles), passwordLength, draws)
    requires s.toggles.uppercase || s.toggles.lowercase || s.toggles.numbers || s.toggles.symbols
    ensures var g := Generated(s, passwordLength, draws);
            g.isGeneratedPassword && g.toggles == s.toggles &&
            |g.password| <= Iterations(passwordLength) &&
            forall c :: c in g.password ==> exists k :: s.toggles.On(k) && c in Literal(k)
  {
    var charList := Alphabet(s.toggles);
    AlphabetEmpty(s.toggles);
    var used := draws[..Iterations(passwordLength)];
    AppendedFromInRange(charList, used);
    InRangeLength(charList, used);
    AppendedInAlphabet(charList, used);
    forall c | c in Generated(s, passwordLength, draws).password
      ensures exists k :: s.toggles.On(k) && c in Literal(k)
    {
      AlphabetMembership(s.toggles, c);
    }
  }

  /** A rejected length leaves the screen as it is. */
  lemma RejectedSubmitIsNoop(s: ScreenState, passwordLength: Option<real>, draws: seq<int>)
    requires passwordLength.Some? ==> |draws| >= Iterations(passwordLength.value)
    requires passwordLength.None? || passwordLength.value < 4.0 || passwordLength.value > 26.0
    ensures Submitted(s, passwordLength, draws) == s
  {
  }

  /**
   * The schema lets 4.5 through, and the loop then runs five times: with only
   * lower case on and in-range draws the stored password has five characters.
   */
  lemma FractionalLengthRunsCeiling(draws: seq<int>)
    requires |draws| >= 5
    requires forall k :: 0 <= k < |draws| ==> 0 <= draws[k] < |LowerCaseChars|
    ensures PasswordSchema.Validate(Some(4.5)).Accepted?
    ensures Iterations(4.5) == 5
    ensures |Submitted(Initial, Some(4.5), draws).password| == 5
  {
    assert Iterations(4.5) == 5;
    AlphabetInOrder(Initial.toggles);
    assert Alphabet(Initial.toggles) == LowerCaseChars;
    var used := draws[..5];
    assert forall k :: 0 <= k < |used| ==> used[k] == draws[k];
    AppendedFromInRange(LowerCaseChars, used);
    InRangeLength(LowerCaseChars, used);
  }

  /** The screen's six state cells, updated in place by the event handlers. */
  class PasswordScreen {
    var password: string
    var isGeneratedPassword: bool
    var lowercase: bool
    var uppercase: bool
    var numbers: bool
    var symbols: bool

    function Toggles(): Toggles
      reads this
    {
      Generator.Toggles(uppercase, lowercase, numbers, symbols)
    }

    function State(): ScreenState
      reads this
    {
      ScreenState(password, isGeneratedPassword, Toggles())
    }

    constructor ()
      ensures State() == Initial
    {
      password := "";
      isGeneratedPassword := false;
      lowercase := true;
      uppercase := false;
      numbers := false;
      symbols := false;
    }

    method PressLowercase()
      modifies this
      ensures State() == Pressed(old(State()), Lower)
    {
      lowercase := !lowercase;
    }

    method PressUppercase()
      modifies this
      ensures State() == Pressed(old(State()), Upper)
    {
      uppercase := !uppercase;
    }

    method PressNumbers()
      modifies this
      ensures State() == Pressed(old(State()), Digit)
    {
      numbers := !numbers;
    }

    method PressSymbols()
      modifies this
      ensures State() == Pressed(old(State()), Symbol)
    {
      symbols := !symbols;
    }

    /** generatePasswordString: compose the alphabet, give up if it is empty, else store a new password. */
    method GeneratePasswordString(passwordLength: real, draws: seq<int>)
      requires DrawsFit(Alphabet(Toggles()), passwordLength, draws)
      modifies this
      ensures State() == Generated(old(State()), passwordLength, draws)
    {
      var charList := ComposeCharList(Toggles());
      if charList == "" {
        return;
      }
      var result := CreatePassword(charList, passwordLength, draws);
      password := result;
      isGeneratedPassword := true;
    }

    /** The form's submit handler, run only when the schema accepts the length. */
    method Submit(passwordLength: Option<real>, draws: seq<int>)
      requires passwordLength.Some? ==> DrawsFit(Alphabet(Toggles()), passwordLength.value, draws)
      modifies this
      ensures State() == Submitted(old(State()), passwordLength, draws)
    {
      if PasswordSchema.Validate(passwordLength).Accepted? {
        GeneratePasswordString(passwordLength.value, draws);
      }
    }

    method Reset()
      modifies this
      ensures State() == Cleared(old(State()))
    {
      password := "";
      isGeneratedPassword := false;
    }
  }
}
