# Password generator screen — verified Dafny model

This project models the logic of a one-screen React Native password generator:

- **PasswordSchema** (`password_schema.dfy`) — the Yup schema on the length field: a number that is required, at least 4 and at most 26, each test with a fixed message. The upper-bound message reads "maximum 16" although the bound enforced is 26. There is no integer test, so 4.5 passes.
- **Generator** (`generator.dfy`) — the alphabet that `generatePasswordString` composes from the four class toggles, always in the order upper case, lower case, digits, symbols, and `createPassword`, whose `for` loop appends `charAt(Math.round(Math.random() * length))` once per iteration. The class literals are kept verbatim; the lower-case literal has 27 characters because it contains `u` twice. The random source is an injected sequence of drawn indices. Each index lies in `[0, |alphabet|]`, top included, because the source rounds rather than floors (`RoundIndexRange`). `charAt` of the top index is the empty string, so a password can come out shorter than asked for. The length is a JavaScript number, modelled as an exact `real`, and the loop runs ⌈n⌉ times for n > 0 and never otherwise (`Iterations`).
- **Screen** (`screen.dfy`) — the six `useState` cells as the class `PasswordScreen`, updated in place by the four checkbox handlers, the generate handler (through the validated form submit) and the reset handler. Each method is proved to follow a pure transition function on `ScreenState`, and the properties of the screen are lemmas about those functions.
- **Wrappers** (`wrappers.dfy`) — `Option`, for an absent length.

## Model

| member | source | states |
|---|---|---|
| PasswordSchema.Validate | validators/passwordSchema.ts:3-8 | a present length is accepted iff 4 ≤ n ≤ 26; an absent one is rejected with "Password length should be required", n < 4 with the minimum-of-4 message, n > 26 with the "maximum 16" message |
| PasswordSchema.AtMostOneFailure | validators/passwordSchema.ts:4-7 | at most one of the three tests fails on any input, so the order in which errors are reported never changes the message shown |
| PasswordSchema.AcceptedAboveStatedMaximum | validators/passwordSchema.ts:6 | lengths in (16, 26] are accepted although the upper-bound message names 16; the message appears only above 26 |
| PasswordSchema.FractionalLengthAccepted | validators/passwordSchema.ts:4-7 | without an integer test, 4.5 is accepted, while 3.5 and 26.5 are rejected with the bound messages |
| Generator.AlphabetInOrder | App.tsx:24-33 | the alphabet is the concatenation of the switched-on class literals in the order upper, lower, digits, symbols; switched-off classes contribute nothing |
| Generator.ComposeCharList | App.tsx:24-33 | the `charList +=` steps build exactly that alphabet |
| Generator.AlphabetMembership | App.tsx:25-33 | a character is in the alphabet iff some switched-on class literal contains it |
| Generator.AlphabetLength | App.tsx:25-33 | the alphabet length is 26, 27, 10 and 22 summed over the switched-on classes |
| Generator.AlphabetEmpty | App.tsx:30-35 | the alphabet is empty iff no toggle is on |
| Generator.IterationsTest | App.tsx:47 | a counter value i passes the loop test `i < passwordLength` iff i < Iterations(passwordLength), that is ⌈n⌉ for n > 0 and 0 otherwise |
| Generator.AppendedFromInRange | App.tsx:48-49 | the k-th appended character is the alphabet character at the k-th in-range drawn index, and an out-of-range index appends nothing |
| Generator.InRangeLength | App.tsx:47-49 | there are at most as many in-range indices as draws, and exactly as many iff every draw is in range |
| Generator.AppendedInAlphabet | App.tsx:49 | every appended character occurs in the alphabet |
| Generator.CreatePassword | App.tsx:42-52 | the loop runs Iterations(passwordLength) times; the result has at most that many characters, exactly that many iff no draw equals the alphabet length, and uses only alphabet characters |
| Generator.RoundIndexRange | App.tsx:48 | `Math.round(u * len)` for u in [0, 1) lies in [0, len], the top index included |
| Generator.RoundIndexReachesLength | App.tsx:48 | every fraction within half a step of 1 rounds to the out-of-range index len |
| Generator.TopIndexShortensPassword | App.tsx:47-49 | one iteration that draws the top index yields the empty password, though one character was requested |
| Generator.FloorIndexRange | App.tsx:48 | the floor-based index `Math.floor(u * len)` lies in [0, len) for a non-empty alphabet |
| Generator.FloorDrawsFillPassword | App.tsx:46-51 | with floor-based indices the password has exactly Iterations(passwordLength) characters, all from the alphabet |
| Screen.PressFlipsOnlyItsToggle | App.tsx:93-119 | a checkbox press flips its own toggle and no other, and keeps the password and its flag |
| Screen.PressTwiceRestores | App.tsx:93-119 | pressing the same checkbox twice restores the whole state |
| Screen.ResetIdempotent | App.tsx:134-139 | reset clears the password and the generated flag, keeps all four toggles, and a second reset changes nothing |
| Screen.GenerateWithoutClassesIsNoop | App.tsx:35 | with no class switched on, generation leaves the password, the flag and the toggles as they were |
| Screen.GenerateStoresPassword | App.tsx:36-39 | with some class on, generation sets the flag, keeps the toggles, and stores a password of at most Iterations characters, each from a switched-on class |
| Screen.RejectedSubmitIsNoop | App.tsx:58-63 | a length the schema rejects (absent, below 4, above 26) never reaches generation, so the state is unchanged |
| Screen.FractionalLengthRunsCeiling | App.tsx:61-63 | the accepted length 4.5 runs the loop five times, so with in-range draws the stored password has five characters |
| Screen.PasswordScreen.constructor | App.tsx:16-21 | initial state: empty password, flag false, lower case on, upper case, numbers and symbols off |
| Screen.PasswordScreen.PressLowercase | App.tsx:95 | flips the lower-case toggle only |
| Screen.PasswordScreen.PressUppercase | App.tsx:103 | flips the upper-case toggle only |
| Screen.PasswordScreen.PressNumbers | App.tsx:111 | flips the numbers toggle only |
| Screen.PasswordScreen.PressSymbols | App.tsx:119 | flips the symbols toggle only |
| Screen.PasswordScreen.GeneratePasswordString | App.tsx:23-40 | returns without change on an empty alphabet; otherwise stores createPassword's result and sets the flag, toggles unchanged |
| Screen.PasswordScreen.Submit | App.tsx:58-63 | runs generation with the submitted length only when the schema accepts it |
| Screen.PasswordScreen.Reset | App.tsx:134-139 | sets the password to "" and the flag to false, toggles unchanged |

## Left out

- Rendering and layout (`SafeAreaView`, `ScrollView`, `Text`, `TextInput`, `BouncyCheckbox`, `TouchableOpacity`, the `styles` object): presentation with no logic.
- Formik plumbing: the touched/errors display, `handleChange`, and `handleReset`'s clearing of the length field. These are library behaviour. The model keeps only the gate: generation runs on submit only when the schema accepts the length, which also covers the button disabled while the form is invalid.
- `Math.random` and floating-point arithmetic: each draw is an injected index in `[0, |alphabet|]`. `RoundIndex` and `FloorIndex` compute on exact reals, without float rounding.
- Yup's coercion of the text input to a number (parsing, whitespace, `NaN`, infinities): the schema takes an already-parsed optional number.
- Screen.PasswordScreen.GeneratePasswordString: the draws are a parameter that must supply at least Iterations(passwordLength) indices, so a non-terminating loop on an infinite length is not modelled.

## Findings

| source | as written | input that shows it | evidently intended | confidence | as-written member | corrected member |
|---|---|---|---|---|---|---|
| App.tsx:48 | `Math.round(Math.random() * characterList.length)` can produce the index `characterList.length`, and `charAt` then appends nothing, so the password is shorter than requested | a one-character alphabet, length 1, `Math.random()` returning 0.5: the index is 1 and the password is "" | a floor-based index in `[0, length)`, so that every iteration appends one alphabet character | high, not executed | Generator.RoundIndexReachesLength | Generator.FloorDrawsFillPassword |

The screen model keeps the behaviour as written, because it describes App.tsx. `Generator.CreatePassword` and `Screen.GenerateStoresPassword` therefore promise at most Iterations characters. `Generator.TopIndexShortensPassword` shows the shortfall for a single draw. The corrected, floor-based construction is proved separately in `Generator.FloorDrawsFillPassword`.
