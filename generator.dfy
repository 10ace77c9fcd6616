/**
 * Password construction in App.tsx: the alphabet that generatePasswordString
 * composes from the four character-class toggles, and createPassword, which
 * appends one `charAt` of that alphabet per loop iteration.
 *
 * `Math.random()` is replaced by an injected sequence of drawn indices. Since
 * the source scales the random fraction by the alphabet length and ROUNDS it,
 * a drawn index lies in [0, |alphabet|] inclusive (RoundIndexRange), and the
 * top index makes `charAt` return the empty string.
 */
module Generator {

  datatype CharClass = Upper | Lower | Digit | Symbol

  /** The order in which generatePasswordString appends the class literals. */
  const ClassOrder: seq<CharClass> := [Upper, Lower, Digit, Symbol]

  const UpperCaseChars: string := "ABCDEFGHIJKLMNOPQRSTUVWXYZ"
  /** As written in the source: 27 characters, with 'u' twice. */
  const LowerCaseChars: string := "abcdefghijklmnopqurstuvwxyz"
  const NumberChars: string := "0123456789"
  const SymbolChars: string := "!@#$%^&*()_+=-':><?/.,"

  function Literal(k: CharClass): string {
    match k
    case Upper => UpperCaseChars
    case Lower => LowerCaseChars
    case Digit => NumberChars
    case Symbol => SymbolChars
  }

  /** The four checkbox states that generatePasswordString reads. */
  datatype Toggles = Toggles(uppercase: bool, lowercase: bool, numbers: bool, symbols: bool) {
    predicate On(k: CharClass) {
      match k
      case Upper => uppercase
      case Lower => lowercase
      case Digit => numbers
      case Symbol => symbols
    }

    /** The toggles after pressing the checkbox of class k. */
    function Flip(k: CharClass): (t: Toggles)
      ensures t.On(k) == !On(k)
      ensures forall j :: j != k ==> t.On(j) == On(j)
    {
      match k
      case Upper => this.(uppercase := !uppercase)
      case Lower => this.(lowercase := !lowercase)
      case Digit => this.(numbers := !numbers)
      case Symbol => this.(symbols := !symbols)
    }
  }

  /** The literals of the classes of ks that t switches on, concatenated in the order of ks. */
  function EnabledLiterals(t: Toggles, ks: seq<CharClass>): string {
    if ks == [] then ""
    else EnabledLiterals(t, ks[..|ks| - 1]) + (if t.On(ks[|ks| - 1]) then Literal(ks[|ks| - 1]) else "")
  }

  /** The alphabet a generation draws from. */
  function Alphabet(t: Toggles): string {
    EnabledLiterals(t, ClassOrder)
  }

  /**
   * The alphabet is the concatenation of the switched-on class literals, in
   * the order upper case, lower case, digits, symbols.
   */
  lemma AlphabetInOrder(t: Toggles)
    ensures Alphabet(t) == (if t.uppercase then UpperCaseChars else "") + (if t.lowercase then LowerCaseChars else "")
                           + (if t.numbers then NumberChars else "") + (if t.symbols then SymbolChars else "")
  {
    var u := if t.uppercase then UpperCaseChars else "";
    var l := if t.lowercase then LowerCaseChars else "";
    var d := if t.numbers then NumberChars else "";
    assert [Upper][..0] == [];
    assert EnabledLiterals(t, [Upper]) == u;
    assert [Upper, Lower][..1] == [Upper];
    assert EnabledLiterals(t, [Upper, Lower]) == u + l;
    assert ClassOrder[..3][..2] == [Upper, Lower];
    assert EnabledLiterals(t, ClassOrder[..3]) == u + l + d;
  }

  /** generatePasswordString's `charList += ...` steps, one per class in ClassOrder. */
  method ComposeCharList(t: Toggles) returns (charList: string)
    ensures charList == Alphabet(t)
  {
    AlphabetInOrder(t);
    charList := "";
    if t.uppercase { charList := charList + UpperCaseChars; }
    if t.lowercase { charList := charList + LowerCaseChars; }
    if t.numbers { charList := charList + NumberChars; }
    if t.symbols { charList := charList + SymbolChars; }
  }

  lemma {:induction false} EnabledLiteralsMembership(t: Toggles, ks: seq<CharClass>, c: char)
    ensures c in EnabledLiterals(t, ks) <==> exists j :: 0 <= j < |ks| && t.On(ks[j]) && c in Literal(ks[j])
  {
    if ks != [] {
      var init := ks[..|ks| - 1];
      EnabledLiteralsMembership(t, init, c);
      assert forall j :: 0 <= j < |init| ==> init[j] == ks[j];
    }
  }

  /** A character is in the alphabet exactly when some switched-on class contains it. */
  lemma AlphabetMembership(t: Toggles, c: char)
    ensures c in Alphabet(t) <==> exists k :: t.On(k) && c in Literal(k)
  {
    EnabledLiteralsMembership(t, ClassOrder, c);
    if exists k :: t.On(k) && c in Literal(k) {
      var k :| t.On(k) && c in Literal(k);
      var j := match k case Upper => 0 case Lower => 1 case Digit => 2 case Symbol => 3;
      assert ClassOrder[j] == k;
    }
  }

  /** Switched-off classes contribute nothing; each switched-on one contributes its whole literal. */
  lemma AlphabetLength(t: Toggles)
    ensures |Alphabet(t)| == (if t.uppercase then 26 else 0) + (if t.lowercase then 27 else 0)
                             + (if t.numbers then 10 else 0) + (if t.symbols then 22 else 0)
  {
    AlphabetInOrder(t);
  }

  /** The alphabet is empty exactly when no class is switched on. */
  lemma AlphabetEmpty(t: Toggles)
    ensures Alphabet(t) == "" <==> !t.uppercase && !t.lowercase && !t.numbers && !t.symbols
  {
    AlphabetLength(t);
  }

  /** `String.prototype.charAt`: the one-character string at i, or "" when i is out of range. */
  function CharAt(s: string, i: int): string {
    if 0 <= i < |s| then [s[i]] else ""
  }

  /** The string built by appending `charAt(d)` for each drawn index d in turn. */
  function Appended(characterList: string, draws: seq<int>): string {
    if draws == [] then ""
    else Appended(characterList, draws[..|draws| - 1]) + CharAt(characterList, draws[|draws| - 1])
  }

  /** The drawn indices that fall inside the alphabet, in drawing order. */
  function InRange(characterList: string, draws: seq<int>): seq<int> {
    if draws == [] then []
    else InRange(characterList, draws[..|draws| - 1])
         + (if 0 <= draws[|draws| - 1] < |characterList| then [draws[|draws| - 1]] else [])
  }

  /** The k-th character appended is the alphabet character at the k-th in-range index. */
  lemma {:induction false} AppendedFromInRange(characterList: string, draws: seq<int>)
    ensures |Appended(characterList, draws)| == |InRange(characterList, draws)|
    ensures forall k :: 0 <= k < |InRange(characterList, draws)| ==>
              0 <= InRange(characterList, draws)[k] < |characterList| &&
              Appended(characterList, draws)[k] == characterList[InRange(characterList, draws)[k]]
  {
    if draws != [] {
      AppendedFromInRange(characterList, draws[..|draws| - 1]);
    }
  }

  /**
   * No more in-range indices than draws, and as many exactly when every draw
   * is in range; for draws in [0, |list|] that means no draw hits |list|.
   */
  lemma {:induction false} InRangeLength(characterList: string, draws: seq<int>)
    ensures |InRange(characterList, draws)| <= |draws|
    ensures |InRange(characterList, draws)| == |draws| <==> forall k :: 0 <= k < |draws| ==> 0 <= draws[k] < |characterList|
  {
    if draws != [] {
      var init := draws[..|draws| - 1];
      InRangeLength(characterList, init);
      assert forall k :: 0 <= k < |init| ==> init[k] == draws[k];
    }
  }

  /** Every appended character belongs to the alphabet. */
  lemma AppendedInAlphabet(characterList: string, draws: seq<int>)
    ensures forall c :: c in Appended(characterList, draws) ==> c in characterList
  {
    AppendedFromInRange(characterList, draws);
  }

  /** How often `for (let i = 0; i < passwordLength; i++)` runs: the ceiling of a positive length, else zero. */
  function Iterations(passwordLength: real): nat {
    if passwordLength <= 0.0 then 0 else -((-passwordLength).Floor)
  }

  /** The counter value i passes the loop test exactly when i < Iterations. */
  lemma IterationsTest(passwordLength: real, i: nat)
    ensures (i as real) < passwordLength <==> i < Iterations(passwordLength)
  {
    if passwordLength > 0.0 {
      var f := (-passwordLength).Floor;
      assert f as real <= -passwordLength < f as real + 1.0;
    }
  }

  /** The drawn indices the random source supplies: enough of them, each as Math.round can produce. */
  predicate DrawsFit(characterList: string, passwordLength: real, draws: seq<int>) {
    |draws| >= Iterations(passwordLength) &&
    forall k :: 0 <= k < |draws| ==> 0 <= draws[k] <= |characterList|
  }

  /** The password createPassword returns when the loop consumes the first Iterations draws. */
  function CreatedPassword(characterList: string, passwordLength: real, draws: seq<int>): string
    requires |draws| >= Iterations(passwordLength)
  {
    Appended(characterList, draws[..Iterations(passwordLength)])
  }

  /**
   * createPassword: one `charAt` per loop iteration. The result is at most as
   * long as the iteration count, exactly as long when no draw hits the top
   * index |characterList|, and uses only characters of characterList.
   */
  method CreatePassword(characterList: string, passwordLength: real, draws: seq<int>) returns (result: string)
    requires DrawsFit(characterList, passwordLength, draws)
    ensures result == CreatedPassword(characterList, passwordLength, draws)
    ensures |result| <= Iterations(passwordLength)
    ensures |result| == Iterations(passwordLength) <==>
              forall k :: 0 <= k < Iterations(passwordLength) ==> draws[k] != |characterList|
    ensures forall c :: c in result ==> c in characterList
  {
    result := "";
    var i: nat := 0;
    while (i as real) < passwordLength
      invariant i <= Iterations(passwordLength)
      invariant result == Appended(characterList, draws[..i])
      decreases Iterations(passwordLength) - i
    {
      IterationsTest(passwordLength, i);
      var charIndex := draws[i];
      result := result + CharAt(characterList, charIndex);
      assert draws[..i + 1][..i] == draws[..i];
      i := i + 1;
    }
    IterationsTest(passwordLength, i);
    var used := draws[..i];
    AppendedFromInRange(characterList, used);
    InRangeLength(characterList, used);
    AppendedInAlphabet(characterList, used);
  }

  lemma ProductNonNegative(a: real, b: real)
    requires 0.0 <= a && 0.0 <= b
    ensures 0.0 <= a * b
  {
  }

  /** JavaScript's `Math.round(u * len)` on exact reals (halves round up). */
  function RoundIndex(u: real, len: nat): int {
    (u * len as real + 0.5).Floor
  }

  /** For a fraction u in [0, 1) the rounded index lies in [0, len], the top included. */
  lemma RoundIndexRange(u: real, len: nat)
    requires 0.0 <= u < 1.0
    ensures 0 <= RoundIndex(u, len) <= len
  {
    var x := u * len as real;
    assert len as real - x == (1.0 - u) * len as real;
    ProductNonNegative(1.0 - u, len as real);
    ProductNonNegative(u, len as real);
    assert 0.0 <= x <= len as real;
    var f := (x + 0.5).Floor;
    assert f as real <= x + 0.5 < f as real + 1.0;
  }

  /**
   * Every fraction within half a step of 1 rounds to the out-of-range index
   * len (for instance u = 0.5 with a one-character alphabet).
   */
  lemma RoundIndexReachesLength(u: real, len: nat)
    requires u < 1.0 && len as real - 0.5 <= u * len as real
    ensures RoundIndex(u, len) == len
  {
    var x := u * len as real;
    assert len as real - x == (1.0 - u) * len as real;
    ProductNonNegative(1.0 - u, len as real);
    var f := (x + 0.5).Floor;
    assert f as real <= x + 0.5 < f as real + 1.0;
  }

  /** A drawn top index makes createPassword return fewer characters than asked for. */
  lemma TopIndexShortensPassword(characterList: string)
    ensures CreatedPassword(characterList, 1.0, [|characterList|]) == ""
  {
    var draws := [|characterList|];
    assert Iterations(1.0) == 1;
    assert draws[..1] == draws && draws[..0] == [];
    assert Appended(characterList, draws) == Appended(characterList, []) + CharAt(characterList, |characterList|);
  }

  /** The floor-based index `Math.floor(u * len)` that the loop evidently intends. */
  function FloorIndex(u: real, len: nat): int {
    (u * len as real).Floor
  }

  /** Floor-based indices from fractions in [0, 1). */
  function FloorDraws(us: seq<real>, len: nat): (draws: seq<int>)
    ensures |draws| == |us|
  {
    seq(|us|, k requires 0 <= k < |us| => FloorIndex(us[k], len))
  }

  /** For a fraction u in [0, 1) and a non-empty alphabet the floor-based index is in range. */
  lemma FloorIndexRange(u: real, len: nat)
    requires 0.0 <= u < 1.0 && len > 0
    ensures 0 <= FloorIndex(u, len) < len
  {
    var x := u * len as real;
    assert len as real - x == (1.0 - u) * len as real;
    ProductNonNegative(1.0 - u, len as real);
    ProductNonNegative(u, len as real);
    assert 0.0 <= x < len as real;
  }

  /**
   * With floor-based indices every iteration appends a character: the
   * password has exactly Iterations characters, all from the alphabet.
   */
  lemma FloorDrawsFillPassword(characterList: string, passwordLength: real, us: seq<real>)
    requires |characterList| > 0
    requires |us| >= Iterations(passwordLength)
    requires forall k :: 0 <= k < |us| ==> 0.0 <= us[k] < 1.0
    ensures var p := CreatedPassword(characterList, passwordLength, FloorDraws(us, |characterList|));
            |p| == Iterations(passwordLength) && forall c :: c in p ==> c in characterList
  {
    var used := FloorDraws(us, |characterList|)[..Iterations(passwordLength)];
    forall k | 0 <= k < |used|
      ensures 0 <= used[k] < |characterList|
    {
      FloorIndexRange(us[k], |characterList|);
    }
    AppendedFromInRange(characterList, used);
    InRangeLength(characterList, used);
    AppendedInAlphabet(characterList, used);
  }
}
