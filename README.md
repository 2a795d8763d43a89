# Portfolio hero and contact form, modelled in Dafny

This project models the two parts of a personal portfolio site whose behaviour
can be stated exactly.

- **BlurText** is the hero's text-reveal animation in `src/sections/Hero.jsx`.
  It cuts a text into segments. In `"words"` mode it splits on single spaces.
  In any other mode it splits into characters. It renders one span per
  segment, and in words mode every word but the last gets a non-breaking
  space after it. Every span gets the hidden or the revealed style, delayed by
  `index * delay` ms. A one-shot `inView` flag, set by an intersection
  observer, decides which style applies.
- **The Hero section's own state** is the dark/light theme, kept in step with
  a `dark` class on the document element, and the menu that a mouse-down
  outside it closes.
- **The contact form controller** in `src/sections/Contact.jsx` holds three
  fields, a loading flag and an alert. `handleSubmit` sends the form to an
  e-mail service. On delivery it clears the form and shows a success alert.
  On failure it keeps the form and shows a danger alert. Each alert schedules
  a timer that hides it.

Files:

- `segments.dfy` (module `Segments`): JavaScript's `split(" ")` and
  `split("")` as functions, with their round trips and counts.
- `blur_text.dfy` (module `BlurText`): the per-segment style, delay and
  suffix, the rendered spans, the one-shot reveal (class `View`) and the
  hero's call sites.
- `hero.dfy` (module `Hero`): class `HeroState`, with the theme toggle and
  the click-outside handler.
- `contact.dfy` (module `Contact`): class `ContactForm` and the send payload.

The e-mail service is an input of the model. `StartSubmit` records the
request it issues in `sent`. `FinishSubmit` takes the outcome, `Delivered`
or `Failed`. Splitting `handleSubmit` at its `await` lets the model
interleave other steps with an unsettled send, such as a field edit or a
second submission. Each `setTimeout` from `showAlertMessage` is counted in
`pendingHides`, and `HideTimerFires` is one of them firing.

Two facts about the contact form's code shape the model:

- The submit button is never disabled (src/sections/Contact.jsx:121-126). A
  second submission while one is in flight is possible and issues a second
  request. `inFlight` counts the sends not yet settled; only those can
  settle, each exactly once.
- A new alert does not restart the hide timer
  (src/sections/Contact.jsx:22-24). Every scheduled timer fires, so an
  earlier alert's timer can hide a later alert early.
  `Contact.EarlierTimerHidesLaterAlert` shows this.

## Model

| member | source | states |
|---|---|---|
| `Segments.SplitWords` | src/sections/Hero.jsx:57-59 | splitting on spaces always gives at least one segment, even for the empty text |
| `Segments.SplitChars` | src/sections/Hero.jsx:58 | splitting into characters gives one segment per character, and segment `i` is character `i` |
| `Segments.SplitWordsJoin` | src/sections/Hero.jsx:57-59 | joining the words-mode segments with a single space gives back the original text |
| `Segments.JoinSplitWords` | src/sections/Hero.jsx:57-59 | joining the words-mode segments with any separator is the text with every space replaced by that separator |
| `Segments.SplitWordsCount` | src/sections/Hero.jsx:57-59 | the number of words-mode segments is the number of spaces plus one |
| `Segments.SplitWordsAreWords` | src/sections/Hero.jsx:58 | no words-mode segment contains a space |
| `Segments.SplitWordsOfJoin` | src/sections/Hero.jsx:58 | splitting a space-join of space-free words gives exactly those words back, so the split is the only such decomposition |
| `Segments.SplitWordsFirstEmpty` | src/sections/Hero.jsx:58 | the first segment is empty if and only if the text is empty or starts with a space |
| `Segments.SplitWordsLastEmpty` | src/sections/Hero.jsx:58 | the last segment is empty if and only if the text is empty or ends with a space |
| `Segments.SplitCharsConcat` | src/sections/Hero.jsx:58 | concatenating the character segments gives back the text |
| `Segments.SplitCharsOfConcat` | src/sections/Hero.jsx:58 | splitting a concatenation of one-character strings gives those strings back |
| `BlurText.SegmentsOf` | src/sections/Hero.jsx:57-59 | in words mode there are spaces + 1 segments and they join back to the text; in any other mode there are as many segments as characters, each one character long, and they concatenate back to the text |
| `BlurText.Render` | src/sections/Hero.jsx:61-80 | the component renders one span per segment |
| `BlurText.RenderedText` | src/sections/Hero.jsx:63-78 | the spans' texts read as the text with every space turned into a non-breaking space in words mode, and as the text itself in any other mode |
| `BlurText.NbspPlacement` | src/sections/Hero.jsx:77 | in words mode every span but the last is its segment plus a non-breaking space and the last is its bare segment; in any other mode span `i` is exactly character `i` |
| `BlurText.DelaysStagger` | src/sections/Hero.jsx:73 | span `i` has delay `i * delay`, so the first has delay 0, and for a non-negative delay the delays never decrease with the index |
| `BlurText.StylesDifferOnlyInDelay` | src/sections/Hero.jsx:66-74 | all spans of one component share the same style apart from their delay |
| `BlurText.RevealStyles` | src/sections/Hero.jsx:68-72 | revealed spans have no blur, opacity 1 and no offset, whatever the direction; hidden spans have a 10px blur and opacity 0, and are offset by 20px, upwards exactly when the direction is "top" |
| `BlurText.ObserveKeepsReveal` | src/sections/Hero.jsx:38-41 | once `inView` is true, no sequence of observer entries sets it back to false |
| `BlurText.ObserveReveals` | src/sections/Hero.jsx:33-41 | starting from false, `inView` becomes true if and only if the first entry of some callback's batch was intersecting |
| `BlurText.LaterEntriesIgnored` | src/sections/Hero.jsx:37-41 | only the first entry of a batch counts: a batch whose first entry is not intersecting reveals nothing, even when a later entry is |
| `BlurText.ObserveOneShot` | src/sections/Hero.jsx:38-41 | observing two batches of entries is observing the second from the state the first left, and later entries never undo a reveal |
| `BlurText.View.constructor` | src/sections/Hero.jsx:25-33 | a mounted component keeps its props and starts with `inView` false |
| `BlurText.View.OnEntries` | src/sections/Hero.jsx:36-41 | the observer callback sets `inView` when the first entry of its batch is intersecting and otherwise leaves it, so it never goes from true to false |
| `BlurText.View.Spans` | src/sections/Hero.jsx:61-80 | what the component shows depends only on its props and `inView`, with one span per segment |
| `BlurText.CraftingCallSite` | src/sections/Hero.jsx:236-243 | "A Developer Dedicated to Crafting " splits into five words and a trailing empty segment, so with the call site's props six spans render, the fifth is "Crafting" followed by a non-breaking space and the last is empty |
| `BlurText.WebApplicationsCallSite` | src/sections/Hero.jsx:253-260 | " web-applications" splits into a leading empty segment and one word |
| `BlurText.DefaultPropsRenderOneEmptySpan` | src/sections/Hero.jsx:25-29 | with the default props the component renders exactly one empty span with delay 0 |
| `Hero.ClickInsideKeepsMenu` | src/sections/Hero.jsx:97-106 | a click inside the menu or on its button never closes the menu |
| `Hero.UnattachedRefsNeverClose` | src/sections/Hero.jsx:97-106 | while either ref is unattached no click closes the menu |
| `Hero.HeroState.constructor` | src/sections/Hero.jsx:85-88 | the theme starts dark, the menu starts closed and both refs start unattached |
| `Hero.HeroState.ApplyInitialTheme` | src/sections/Hero.jsx:92-94 | the mount effect adds "dark" to the document classes, which puts them in step with the initial dark theme |
| `Hero.HeroState.ToggleTheme` | src/sections/Hero.jsx:113-121 | the theme flips, the "dark" class is present afterwards if and only if the new theme is dark, and no other class changes |
| `Hero.HeroState.HandleClickOutside` | src/sections/Hero.jsx:97-106 | the menu closes when it is open, both refs are attached and the target is in neither; otherwise nothing changes |
| `Hero.ToggleTwice` | src/sections/Hero.jsx:113-121 | toggling twice restores the theme, leaves the class list in step with it and changes no other class; only the theme and the class list may change |
| `Hero.MenuStaysOpen` | src/sections/Hero.jsx:145-174 | with the menu markup commented out the menu ref stays unattached, no click changes the menu state, and the handler changes nothing but the menu flag |
| `Contact.Update` | src/sections/Contact.jsx:15-17 | the edited field takes the new value and the other two fields keep theirs |
| `Contact.PayloadCarriesForm` | src/sections/Contact.jsx:32-43 | the request carries name as from_name, email as from_email and message as message, with the fixed service, template, to_name "Shubham" and to_email; two forms give the same request only if they are equal |
| `Contact.ButtonLabel` | src/sections/Contact.jsx:121-126 | the label is "Sending..." exactly when loading and "Send" exactly when not |
| `Contact.ContactForm.constructor` | src/sections/Contact.jsx:6-14 | the fields start empty, not loading (label "Send"), no alert shown, type "success", empty message, no timer, nothing sent and nothing in flight |
| `Contact.ContactForm.HandleChange` | src/sections/Contact.jsx:15-17 | exactly the named field is updated |
| `Contact.ContactForm.ShowAlertMessage` | src/sections/Contact.jsx:18-25 | sets type and text, shows the alert and schedules one more hide |
| `Contact.ContactForm.HideTimerFires` | src/sections/Contact.jsx:22-24 | a firing timer hides the alert and leaves its type and text alone |
| `Contact.ContactForm.Send` | src/sections/Contact.jsx:32-43 | a request is issued only while loading, and it is appended to the record of sends |
| `Contact.ContactForm.StartSubmit` | src/sections/Contact.jsx:26-43 | loading starts before the send (label "Sending..."), exactly one request carrying the current form is issued, and one more send is in flight |
| `Contact.ContactForm.FinishSubmit` | src/sections/Contact.jsx:44-51 | only a send in flight can settle, and it settles once; loading ends (label "Send"); on delivery the fields are cleared and a "success" alert with "You message has been sent!" shows; on failure the fields are unchanged and a "danger" alert with "Somthing went wrong!" shows |
| `Contact.ContactForm.HandleSubmit` | src/sections/Contact.jsx:26-52 | a whole uninterrupted submission: one request with the old form, then the outcome's effects, and the alert always has a pending hide |
| `Contact.ContactForm.Submit` | src/sections/Contact.jsx:71-120 | a form with an empty required field, or with an e-mail the browser rejects, leaves the whole state unchanged; a complete form issues exactly its payload, stops loading, shows an alert with a pending hide, and then clears the fields with a success alert on delivery or keeps them with a danger alert on failure |

## Left out

- The decorative shader background (`src/sections/shader-background.jsx`) is not part of this model. It is floating-point rendering driven by per-frame callbacks.
- The e-mail service itself, its API key and the `console.log` calls are left out. A send is a recorded request plus an outcome given as input.
- The observer callback reads only the first entry of each batch. An empty batch would make it throw; the model treats one as changing nothing.
- Registering and unregistering the intersection observer (threshold 0.1), and adding and removing the document's mouse-down listener, are left out. Only the state changes they cause are modelled.
- The 5000 ms delay of the hide timer is left out. Timers are counted, and any pending one may fire as a step.
- React's batched state updates and stale closures are not modelled. Each setter takes effect at once and reads the current state.
- The browser's e-mail format check is an input (`emailFormatValid`). Only the emptiness check of `required` is stated.
- `Segments.SplitChars` splits into Unicode scalar values. JavaScript's `split("")` splits into UTF-16 code units, so the two differ for characters outside the Basic Multilingual Plane.
- `BlurText.StyleFor` gives each style as numbers (blur and offset in px, opacity, delay in ms). It does not give the CSS strings. The fixed `display: inline-block` and the `0.5s ease-out` transition are not modelled. The delay is an integer, while in JavaScript it may be any number.
- JSX markup, class names, images, the background colours chosen by the theme, the static `menuItems` list and the menu toggle button are left out. The menu markup and its button are commented out in the source.
- Rendering the alert (`{showAlert && <Alert …/>}`) is left out. The `Alert`, `FlipWords`, `HeroText`, `ParallaxBackground` and `Particles` components are not part of this model.
