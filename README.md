# Chess showcase and login popup: a Dafny model

This project models the two pieces of state and validation logic in the
front end of a chess-themed web application.

- **The rotating showcase** (`ChessSlider`). Six slides, pawn to king, and one
  mutable index `currentSlide`. A timer, the arrows and the side previews
  advance or retreat the index cyclically. The indicator dots jump to a
  slide. The left and right previews show the slide before and after the
  current one. A text glyph replaces the image when it fails to load.
- **The sign-in / sign-up popup** (`LoginPopup`). There are three forms
  (login, register, forgot password). The register form has eight live
  validity flags derived from regular expressions. Each submit handler
  accepts or rejects and clears or keeps its form. The forgot-password modal
  has two stages. Keystrokes edit one field, and closing the popup resets
  everything.

Files:

- `js_text.dfy` (module `JsText`): the JavaScript string semantics the
  components rely on. It gives `String.prototype.split` with a one-character
  separator (`Split`), proved a bijection with `Join` on separator-free parts.
  It also gives the `\s` whitespace class of JavaScript regular expressions.
- `chess_slider.dfy` (module `ChessSlider`): the slide list, the index
  arithmetic, the fallback glyph, the indicator row, and class `Carousel`
  whose methods update `currentSlide` in place.
- `login_popup.dfy` (module `LoginPopup`): the character classes and regular
  expression tests, each proved equal to a quantified statement of what the
  pattern matches. Also the validity flags, the submit handlers as pure
  transitions over the form records, and class `Popup`. The class holds the
  component's state, and its handler methods change only the fields they name
  in `modifies` (field-level frames such as ``modifies this`loginInput``).

Two modelling choices follow the code exactly:

- The fallback glyph splits the title on the single character `' '`, as
  `title.split(' ')` does. Two consecutive spaces therefore give an empty
  second token and the glyph `'?'`.
- The slide count is the fixed six of the slide list.

## Model

| member | source | states |
|---|---|---|
| `JsText.Split` | src/assets/components/ChessSlider.tsx:144 | `split(' ')` yields at least one part and no part contains the separator |
| `JsText.JoinSplit` | src/assets/components/ChessSlider.tsx:144 | joining the parts of a split with the separator gives back the original string |
| `JsText.SplitPrefix` | src/assets/components/ChessSlider.tsx:144 | a separator-free prefix is glued to the front of the first part and the other parts are unchanged |
| `JsText.SplitJoin` | src/assets/components/ChessSlider.tsx:144 | splitting the join of separator-free parts gives back exactly those parts |
| `ChessSlider.NextIndex` | src/assets/components/ChessSlider.tsx:73-75 | the advanced index stays in `[0, 6)`, wraps from 5 to 0 and is otherwise one more |
| `ChessSlider.PrevIndex` | src/assets/components/ChessSlider.tsx:77-79 | the retreated index stays in `[0, 6)`, wraps from 0 to 5 and is otherwise one less |
| `ChessSlider.NextPrevInverse` | src/assets/components/ChessSlider.tsx:73-79 | advance then retreat, and retreat then advance, both restore the index |
| `ChessSlider.AdvanceTimes` | src/assets/components/ChessSlider.tsx:66-68 | any number of advances keeps the index in range |
| `ChessSlider.AdvanceTimesRotates` | src/assets/components/ChessSlider.tsx:66-75 | `k` advances from `i` reach `(i + k) % 6` |
| `ChessSlider.FullCycle` | src/assets/components/ChessSlider.tsx:73-75 | advancing `slides.length` times returns to the starting index |
| `ChessSlider.Glyph` | src/assets/components/ChessSlider.tsx:144 | the glyph is the character after the first space when it exists and is not a space, and `'?'` otherwise, including when there is no space |
| `JsText.FirstToken` | src/assets/components/ChessSlider.tsx:144 | the first part of a split is empty exactly when the string is empty or starts with the separator, and otherwise starts with its first character |
| `JsText.SecondToken` | src/assets/components/ChessSlider.tsx:144 | without a separator there is one part; otherwise the second part is the first part of the text after the first separator |
| `ChessSlider.GlyphAfterArticle` | src/assets/components/ChessSlider.tsx:144 | a title "The X…" yields the glyph X |
| `ChessSlider.SlideGlyph` | src/assets/components/ChessSlider.tsx:13-62 | the six titles yield P, K, B, R, Q, K in order |
| `ChessSlider.IndicatorRow` | src/assets/components/ChessSlider.tsx:188-197 | there is one indicator dot per slide |
| `ChessSlider.ExactlyOneIndicator` | src/assets/components/ChessSlider.tsx:192-196 | with the index in range exactly one dot satisfies `index === currentSlide`, the current one |
| `ChessSlider.Carousel.constructor` | src/assets/components/ChessSlider.tsx:11 | mounting starts at index 0, which is in range |
| `ChessSlider.Carousel.Current` | src/assets/components/ChessSlider.tsx:130-131 | the centre slide is one of the six slides |
| `ChessSlider.Carousel.GetPrevSlide` | src/assets/components/ChessSlider.tsx:85-87 | the left preview is the slide before the current one, the king when the pawn is current |
| `ChessSlider.Carousel.GetNextSlide` | src/assets/components/ChessSlider.tsx:89-91 | the right preview is the slide after the current one, the pawn when the king is current |
| `ChessSlider.Carousel.FallbackGlyph` | src/assets/components/ChessSlider.tsx:143-145 | the fallback text of the current slide is the matching letter of "PKBRQK" |
| `ChessSlider.Carousel.NextSlide` | src/assets/components/ChessSlider.tsx:73-75 | the index advances cyclically and stays in range; the new current slide is the old right preview and the new left preview is the old current slide |
| `ChessSlider.Carousel.Tick` | src/assets/components/ChessSlider.tsx:66-68 | a timer firing advances the index exactly as `nextSlide` does |
| `ChessSlider.Carousel.PrevSlide` | src/assets/components/ChessSlider.tsx:77-79 | the index retreats cyclically and stays in range; the new current slide is the old left preview and the new right preview is the old current slide |
| `ChessSlider.Carousel.GoToSlide` | src/assets/components/ChessSlider.tsx:81-83 | the index becomes exactly the clicked dot's index, whose dot is then the lit one |
| `ChessSlider.Carousel.ElapseTicks` | src/assets/components/ChessSlider.tsx:65-71 | `k` timer firings move the index `k` places round the cycle |
| `ChessSlider.AdvanceThreeFromMount` | src/assets/components/ChessSlider.tsx:73-75 | from mount, three advances show "The Rook" |
| `ChessSlider.RetreatFromMount` | src/assets/components/ChessSlider.tsx:77-79 | from mount, one retreat shows "The King" |
| `ChessSlider.ThreeTicksFromMount` | src/assets/components/ChessSlider.tsx:66-68 | from mount, three timer firings show "The Rook" |
| `LoginPopup.MatchesLettersOnly` | src/assets/components/LoginPopup.tsx:162 | `/^[a-zA-Z]*$/` holds exactly when every character is an ASCII letter |
| `LoginPopup.ContainsClass` | src/assets/components/LoginPopup.tsx:165-170 | a one-class pattern holds exactly when some character is in the class |
| `JsText.IsWhitespace` | src/assets/components/LoginPopup.tsx:175 | the `\s` class that `\S` complements; among ASCII characters it is exactly the space and tab through carriage return |
| `LoginPopup.IsSpecial` | src/assets/components/LoginPopup.tsx:168-170 | the special-character class is all of ASCII punctuation except `"`, `'`, `` ` `` and `~` |
| `LoginPopup.EmailMatchAt` | src/assets/components/LoginPopup.tsx:175 | a match at given `@` and `.` positions cuts the string into the pattern's pieces: text, `\S+`, `@`, `\S+`, `.`, `\S+`, text |
| `LoginPopup.MatchesEmail` | src/assets/components/LoginPopup.tsx:175 | `/\S+@\S+\.\S+/.test` succeeds exactly when the e-mail is text, `\S+`, `@`, `\S+`, `.`, `\S+`, text |
| `LoginPopup.MatchOfEmailShape` | src/assets/components/LoginPopup.tsx:175 | a string with the pattern's pieces matches at the `@` and `.` between them |
| `LoginPopup.Validate` | src/assets/components/LoginPopup.tsx:160-176 | each of the eight flags holds exactly when its rule holds: username non-empty ASCII letters; password length ≥ 8; some upper, lower, digit and special character; repeat equal and non-empty; e-mail of the `\S+@\S+\.\S+` shape |
| `LoginPopup.RegisterGuard` | src/assets/components/LoginPopup.tsx:76-89 | the register handler's condition holds exactly when all eight flags hold, so passing it implies the repeat-password flag the handler does not check |
| `LoginPopup.SubmitLogin` | src/assets/components/LoginPopup.tsx:47-71 | login is accepted exactly when username and password are non-empty; acceptance clears both, rejection keeps the form |
| `LoginPopup.SubmitRegister` | src/assets/components/LoginPopup.tsx:73-114 | register is accepted exactly when every rule holds; acceptance implies `repeatPasswordValid` and clears the four fields, rejection keeps the form |
| `LoginPopup.SubmitForgot` | src/assets/components/LoginPopup.tsx:116-146 | stage one advances only with e-mail and password, keeping them; stage two with a code clears the form; any missing input changes nothing |
| `LoginPopup.LoginNotRepeatable` | src/assets/components/LoginPopup.tsx:50-66 | of two consecutive login submits the second is always rejected and changes nothing: an accepted login leaves empty fields |
| `LoginPopup.RegisterNotRepeatable` | src/assets/components/LoginPopup.tsx:76-110 | of two consecutive register submits the second is always rejected and changes nothing |
| `LoginPopup.UpdateLogin` | src/assets/components/LoginPopup.tsx:150-151 | an edit changes only the login field it names |
| `LoginPopup.UpdateRegister` | src/assets/components/LoginPopup.tsx:152-153 | an edit changes only the register field it names |
| `LoginPopup.UpdateForgot` | src/assets/components/LoginPopup.tsx:154-155 | an edit of one of the three inputs (`email`, `password`, `code`) changes only the field it names; the stage flag is kept |
| `LoginPopup.RegisterEditsCommute` | src/assets/components/LoginPopup.tsx:152-153 | edits of different fields commute; of the same field the last one wins |
| `LoginPopup.ForgotTwoStages` | src/assets/components/LoginPopup.tsx:116-146 | with e-mail and password the first submit shows the code field; after a code is typed the second submit clears the form |
| `LoginPopup.Popup.constructor` | src/assets/components/LoginPopup.tsx:10-35 | the popup starts on the login tab with every form empty and every flag off |
| `LoginPopup.Popup.HandleLoginSubmit` | src/assets/components/LoginPopup.tsx:47-71 | only the login form changes, as `SubmitLogin` says; closing is requested exactly on acceptance |
| `LoginPopup.Popup.HandleRegisterSubmit` | src/assets/components/LoginPopup.tsx:73-114 | only the register form changes, as `SubmitRegister` says; closing is requested exactly on acceptance |
| `LoginPopup.Popup.HandleForgotPassword` | src/assets/components/LoginPopup.tsx:116-146 | only the forgot form and the modal flag change; the modal closes exactly when stage two is accepted |
| `LoginPopup.Popup.HandleInput` | src/assets/components/LoginPopup.tsx:148-157 | only the named field of the form selected by `type` changes; any other `type` changes nothing |
| `LoginPopup.Popup.OpenForgotModal` | src/assets/components/LoginPopup.tsx:291 | the link opens the forgot-password modal and changes nothing else |
| `LoginPopup.Popup.CancelForgotModal` | src/assets/components/LoginPopup.tsx:434-437 | cancel closes the modal and clears the forgot form |
| `LoginPopup.Popup.SelectTab` | src/assets/components/LoginPopup.tsx:208-221 | a tab header selects its tab and changes nothing else |
| `LoginPopup.Popup.ToggleShowPassword` | src/assets/components/LoginPopup.tsx:273 | the eye button flips password visibility |
| `LoginPopup.Popup.ToggleShowRepeatPassword` | src/assets/components/LoginPopup.tsx:402 | the eye button flips repeat-password visibility |
| `LoginPopup.Popup.OnOpenChanged` | src/assets/components/LoginPopup.tsx:179-189 | closing restores every form and flag to its initial value; opening changes nothing |
| `LoginPopup.RegisterScenario` | src/assets/components/LoginPopup.tsx:73-107 | typing a valid registration and submitting it is accepted and clears the form |
| `LoginPopup.ForgotScenario` | src/assets/components/LoginPopup.tsx:116-146 | both stages of the forgot-password modal are accepted in turn and the modal ends closed |
| `LoginPopup.ExampleRegistrationAccepted` | src/assets/components/LoginPopup.tsx:76-89 | "Alice", "alice@example.com", "Passw0rd!" twice is accepted |
| `LoginPopup.ExampleEmail` | src/assets/components/LoginPopup.tsx:175 | "alice@example.com" has the e-mail shape |
| `LoginPopup.ExamplePassword` | src/assets/components/LoginPopup.tsx:164-170 | "Passw0rd!" meets all five password rules |
| `LoginPopup.EmailUnanchored` | src/assets/components/LoginPopup.tsx:175 | the e-mail test is unanchored: "write to a@b.c today" passes |
| `LoginPopup.EmailRejections` | src/assets/components/LoginPopup.tsx:175 | the e-mail test fails with nothing after the dot, with whitespace before `@`, or with whitespace inside the domain |

## Left out

- Rendering: JSX, CSS class strings and icons. The popup returns `null` when closed, which is not modelled.
- Timer scheduling: the 4000 ms period, `setInterval` and `clearInterval` on unmount. Only a firing's effect is modelled (`Tick`, and `ElapseTicks` for several).
- The image `onError` handler's DOM changes. Only the glyph it reveals is modelled.
- `alert`, `console.log`, `console.error`, `FormData` and `new Date().toISOString()`. Each handler's alert text is carried in its `Outcome` instead.
- `onClose` belongs to the popup's owner. The submit handlers return `closeRequested`, and the owner closing the popup is modelled separately as `OnOpenChanged(false)`.
- The `try`/`catch` blocks: nothing inside them can throw except the login handler's own rejection, which is modelled as `Rejected`.
- The delay of the validation effect: the flags are a pure function of the register form (`Validate`), not state that lags one render behind.
- `Popup.HandleInput`: an input `name` that is not a field of the form adds an extra key to the JavaScript object. Nothing reads that key, so the model leaves the form unchanged.
- `LoginPopup.UpdateForgot`: a `name` of `showCodeInput`, which no input is named, would write the string `value` into the stage flag. The model keeps the flag instead.
- `JsText.IsWhitespace`: the contract characterises only the ASCII members of `\s`. The nineteen non-ASCII members are listed in the body and nowhere else.
- `LoginPopup.Validate`: `passwordLengthValid` counts characters, whereas `.length` counts UTF-16 code units. The two differ only for characters outside the Basic Multilingual Plane.
- `ChessSlider.Carousel.GoToSlide`: out-of-range indices are excluded by `requires`. Its only callers are the indicator dots, which pass the positions of the list.
- The navigation bars, the home page and the login page are not part of this model. They only toggle menus, navigate, play audio and compose components.
