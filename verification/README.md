# Cooking Diary: accounts, recipe saving and search, modelled in Dafny

Cooking Diary is a browser recipe catalogue. Users register and log in, browse a
fixed list of sample recipes, search them by text and add recipes through a
form. Everything is kept in the browser's local storage. This project models
the four pieces of the app that have rules:

- **Accounts and session** (`auth.dfy`, module `Auth`). The class `AuthStore`
  holds the two storage keys as fields:
  - `users`: the `cookingDiaryUsers` list;
  - `session`: the `cookingDiaryCurrentUser` record, or `None` when the key is absent.

  Its methods are `Register`, `Login` and `Logout`, and its functions are
  `GetCurrentUser` and `IsLoggedIn`. The clock value of a registration is the
  parameter `Clock`. A storage fault is the parameter `fault`: the one storage
  access (read and parse, write, or remove) that throws during the call. The
  class invariant `Valid()` says two things: no two stored users share an
  email, and a logged-in session belongs to a stored user. Every operation
  keeps it. Four small client methods check the end-to-end claims. They
  start from any stored users list, with these requirements: `RegisterTwice`
  starts with no session, from a list with distinct emails that lacks the
  registered email; `RegisterThenCurrentUser` requires the registered email to
  be new; `WrongPasswordLooksLikeUnknownEmail` requires distinct emails:
  - a duplicate registration is refused;
  - registering logs the new user in;
  - a wrong password gets the same reply as an unknown email;
  - logging out twice leaves no current user.
- **Saving a recipe** (`add_recipe.dfy`, module `AddRecipe`). This covers:
  - the add-recipe form's validation rules;
  - the pure field normalisations: tags split at commas and trimmed, text split into lines, a default source, and the choice of image;
  - the class `RecipeStore`, whose field is the `recipes` key. Its `SaveRecipe` appends exactly one record, and its `Submit` runs validation first.
- **Recipe search** (`search.dfy`, module `Search`). This is the home page's
  filter. It keeps the recipes whose title, description or some tag contains
  the search term, ignoring case. The lemmas prove five facts about it:
  - the result is an ordered subsequence of the input;
  - an empty term keeps everything;
  - letter case in the term does not matter;
  - filtering twice with the same term changes nothing;
  - a longer term narrows the result.
- **Registration form** (`registration.dfy`, module `Registration`). This
  covers the schema's rules and the submission, which forwards username,
  email and password to `Register`.

The other files hold what these share. `strings.dfy` (module `Strings`) has
the JavaScript string operations, with lemmas proving that `split` and `join`
invert each other and what `trim` leaves. `types.dfy` has the recipe record
and the validation issue. `wrappers.dfy` has `Option` and `Result`.

## Model

| member | source | states |
|---|---|---|
| `Auth.HasEmail` | src/lib/auth.ts:31 | true exactly when some stored user has this email, compared exactly and case-sensitively |
| `Auth.Find` | src/lib/auth.ts:76 | the position of the first user with both this email and this password; `None` exactly when no user has both |
| `Auth.Account` | src/lib/auth.ts:40-44 | the new account's id and creation time are the clock's values; its username, email and password are those given, so it holds exactly the credentials it was registered with |
| `Auth.Project` | src/lib/auth.ts:49-54 | the session record carries the user's id, username and email, and is logged in |
| `Auth.AccountFindable` | src/lib/auth.ts:76 | after a new email's account is appended, `find` with that email and password reaches exactly the new account at the end of the list |
| `Auth.AppendKeepsDistinct` | src/lib/auth.ts:31-47 | appending a user whose email is not stored keeps the stored emails pairwise distinct |
| `Auth.AuthStore.Register` | src/lib/auth.ts:26-66 | a stored email is refused with the "already exists" message, and neither key changes. A read fault is refused with "Failed to register user…" and changes nothing. Success (no fault, new email) appends exactly the new user to the old list and sets the session to that user's id, username and email, logged in. The "already exists" message is given exactly when the list was read and holds the email. Every other failure is "Failed to register user…": a users-write fault leaves the list unchanged, and a session-write fault leaves the new user appended, since that write comes after the list was written. Any failure leaves the session unchanged. Distinct emails are kept whatever the outcome, and so is the session invariant |
| `Auth.AuthStore.Login` | src/lib/auth.ts:71-105 | never changes the users list. It replies "Invalid email or password…" exactly when the list was read and no user matches both email and password. That is one reply for an unknown email and a wrong password alike, and the session is unchanged. Every other failure, a read fault or a session-write fault, replies "Login failed…" with the session unchanged. Success sets the session to the first matching user's projection and returns it |
| `Auth.AuthStore.GetCurrentUser` | src/lib/auth.ts:110-118 | `None` exactly when the session key is absent or cannot be read or parsed; otherwise the stored session |
| `Auth.AuthStore.IsLoggedIn` | src/lib/auth.ts:136-139 | true only for a readable session whose flag is set, and under the invariant that session belongs to a stored user |
| `Auth.AuthStore.Logout` | src/lib/auth.ts:123-131 | succeeds unless the removal faults; on success the session is gone, on failure it is unchanged; users never change |
| `Auth.RegisterTwice` | src/lib/auth.ts:31-47 | registering two users with the same email: the first succeeds, the second gets the "already exists" reply, and the stored list is the old one plus only the first user, with distinct emails |
| `Auth.RegisterThenCurrentUser` | src/lib/auth.ts:40-58 | after a successful registration the current user is `{id, username, email}` of the new account with `isLoggedIn` true, and `IsLoggedIn` holds |
| `Auth.WrongPasswordLooksLikeUnknownEmail` | src/lib/auth.ts:76-83 | a wrong password for a stored email and any password for an unknown email get the identical failure reply |
| `Auth.LogoutTwice` | src/lib/auth.ts:110-131 | after one logout, and again after a second, there is no current user and nobody is logged in |
| `AddRecipe.NormalizeTags` | src/pages/AddRecipe.tsx:100-101 | one tag per comma-separated piece (comma count plus one), each the trim of its piece, with no comma and no whitespace at its ends |
| `AddRecipe.FormattedTags` | src/pages/AddRecipe.tsx:100-101 | an array of tags is used unchanged, a string is normalised, anything else gives no tags |
| `AddRecipe.TagsRoundTrip` | src/pages/AddRecipe.tsx:31 | comma-separated words with any whitespace around them come back as exactly those words, in order |
| `AddRecipe.Lines` | src/pages/AddRecipe.tsx:110-111 | an absent or empty text gives `[]`. A non-empty text gives its newline-separated lines, untrimmed: there is one more line than there are newlines, no line contains a newline, and joining them with newlines restores the text |
| `AddRecipe.LinesExample` | src/pages/AddRecipe.tsx:110-111 | "2 cups flour\n1 cup sugar" gives the two lines, and missing instructions give `[]` |
| `AddRecipe.SourceOrDefault` | src/pages/AddRecipe.tsx:107 | the given source when non-empty, "Personal Recipe" otherwise; never empty |
| `AddRecipe.ImageKeyword` | src/pages/AddRecipe.tsx:108 | the lower-cased first tag when there is a non-empty one, "food" otherwise |
| `AddRecipe.ImageUrlFor` | src/pages/AddRecipe.tsx:108 | the uploaded preview first, then a non-empty image URL field, then the stock-photo URL built from the first tag; never empty |
| `AddRecipe.BuildRecipe` | src/pages/AddRecipe.tsx:103-117 | the new record keeps the id, title, description, preparation time, cooking time and servings. Its source is the source or "Personal Recipe", and its image is chosen from the preview, the URL field and the first tag; neither is ever empty. Its tags are the formatted tags, and both line lists are always present. Its media type and media URL are those of the form |
| `AddRecipe.RecipeIssues` | src/pages/AddRecipe.tsx:27-40 | no issue exactly when the title has at least 3 characters, the description at least 10, and the image URL is absent, empty or a URL. Each rule reports its own message exactly when it fails |
| `AddRecipe.ValidateRecipe` | src/pages/AddRecipe.tsx:27-40 | an invalid form gives its issues. A valid one gives the data with the tags already split and trimmed and the media type defaulting to text; every other field passes through unchanged |
| `AddRecipe.RecipeStore.Recipes` | src/pages/AddRecipe.tsx:97-98 | an absent `recipes` key reads as the empty list |
| `AddRecipe.RecipeStore.SaveRecipe` | src/pages/AddRecipe.tsx:96-123 | without a fault, the stored list becomes the old list (empty if absent) plus exactly the new record at the end, and the returned record is that last element. A storage fault leaves the key unchanged |
| `AddRecipe.RecipeStore.Submit` | src/pages/AddRecipe.tsx:125-141 | a form is rejected, with its issues and before anything is saved, exactly when it fails the schema. A valid form is added exactly when no storage fault occurs, with its tags normalised from the typed string; a fault reports a failed save and leaves the list unchanged |
| `Search.Filter` | src/pages/Home.tsx:17-21 | a recipe is in the result exactly when it is in the input and the lower-cased term occurs in its lower-cased title, description or some tag, with the input's multiplicity |
| `Search.Matches` | src/pages/Home.tsx:18-20 | the empty term matches every recipe, and a matching term is no longer than the title, the description or some tag |
| `Search.FilterIsSubsequence` | src/pages/Home.tsx:17 | the result is a subsequence of the input, in the original order |
| `Search.EmptyTermKeepsAll` | src/pages/Home.tsx:17-21 | the empty term keeps every recipe |
| `Search.CaseInsensitive` | src/pages/Home.tsx:18-20 | terms equal after lower-casing give the same result |
| `Search.FilterIdempotent` | src/pages/Home.tsx:17-21 | filtering the result again with the same term returns it unchanged |
| `Search.MatchesSubTerm` | src/pages/Home.tsx:18-20 | a recipe matching a term matches every substring of it |
| `Search.NarrowingTerm` | src/pages/Home.tsx:17-21 | when `t2` contains `t1`, the result for `t2` is the result for `t1` filtered by `t2`, and so a subsequence of it |
| `Registration.RegistrationIssues` | src/pages/Registration.tsx:22-30 | no issue exactly when the username has at least 3 characters, the email is valid, the password has at least 8 and equals the confirmation. Each rule reports exactly when it fails; the mismatch is reported on the `confirmPassword` field |
| `Registration.Request` | src/pages/Registration.tsx:51-55 | `registerUser` receives the form's username, email and password unchanged; the confirmation is not part of it |
| `Registration.FailureDescription` | src/pages/Registration.tsx:66 | the register message when present and non-empty, "Failed to create account. Please try again." otherwise |
| `Registration.Submit` | src/pages/Registration.tsx:50-70 | a form failing the schema never reaches registration and changes nothing. A valid one stores an account with exactly its username, email and password; the confirmation is not forwarded. It registers exactly when the email is new and no fault occurs. A refusal shows the register message: the "already exists" message for a stored email, otherwise "Failed to register user…", with the users list unchanged, or with the new account appended when only the session write failed. The account invariant is kept |
| `Strings.Lower` | src/pages/Home.tsx:18-20 | same length; each ASCII upper-case letter becomes its lower-case letter, every other character is kept, and no upper-case ASCII letter is left |
| `Strings.Contains` | src/pages/Home.tsx:18-20 | an occurrence needs a term no longer than the text, and a prefix always occurs |
| `Strings.Split` | src/pages/AddRecipe.tsx:110-111 | `split` always gives at least one piece |
| `Strings.Join` | src/pages/AddRecipe.tsx:101 | the inverse against which the tag `split` is stated; the first piece is a prefix of the joined string |
| `Strings.JoinCount` | src/pages/AddRecipe.tsx:101 | joining separator-free pieces puts exactly one separator between neighbours |
| `Strings.LowerIdempotent` | src/pages/Home.tsx:18-20 | lower-casing twice is lower-casing once |
| `Strings.ContainsTransitive` | src/pages/Home.tsx:18-20 | a substring of a substring is a substring |
| `Strings.LowerKeepsContains` | src/pages/Home.tsx:18-20 | an occurrence survives lower-casing both strings |
| `Strings.Trim` | src/pages/AddRecipe.tsx:101 | the result is the slice of the input left once the whitespace at both ends is removed, and neither of its ends is whitespace |
| `Strings.TrimPadded` | src/pages/AddRecipe.tsx:101 | trimming a word padded with whitespace gives the word back |
| `Strings.SplitCount` | src/pages/AddRecipe.tsx:101 | `split` gives one more piece than there are separators |
| `Strings.SplitPiecesFree` | src/pages/AddRecipe.tsx:110-111 | no piece of a `split` contains the separator |
| `Strings.JoinSplit` | src/pages/AddRecipe.tsx:110-111 | joining the pieces of a `split` with the separator restores the string |
| `Strings.SplitJoin` | src/pages/AddRecipe.tsx:101 | splitting a join of separator-free pieces gives back the pieces |

## Left out

- JSON `parse`/`stringify` and the `localStorage` API are not modelled. Each storage key is a typed field, and a parse, write or remove failure is the `fault` parameter. Whether a value survives serialisation is library behaviour.
- The values a parsed key may hold are not checked. `getCurrentUser` returns whatever JSON the key holds; the model's session is always a well-formed `CurrentUser`.
- `Date.now()` and `new Date().toISOString()` are parameters: `Clock` in `Auth.AuthStore.Register`, `id` in `AddRecipe.RecipeStore.SaveRecipe`. Nothing claims ids are unique, because the code does not ensure it.
- The email, URL and datetime syntax checks of the schema library are boolean parameters (`emailIsValid`, `imageUrlIsUrl`). The `userSchema` in src/lib/auth.ts:3-9 only declares a type: `registerUser` never checks it, and neither does the model.
- `servings` arrives already parsed as `Option<int>`. `parseInt` and `NaN` are not modelled.
- `toLowerCase` lowers the ASCII letters only. Full Unicode case mapping is not modelled. `trim` uses the exact ECMAScript whitespace and line-terminator set.
- String lengths in the form rules count Unicode characters. JavaScript counts UTF-16 code units, so the two differ for characters outside the Basic Multilingual Plane.
- The media type is typed as one of text, audio and video, defaulting to text. The schema's message for an out-of-range value is not modelled, because the page's tabs cannot produce one.
- Image and media uploads through `FileReader` are not modelled. The uploaded preview and the media content are parameters. Toasts, navigation, React state and rendering are left out too.
- `AddRecipe.RecipeStore.SaveRecipe`: a fault is one flag covering both the read and the write of the `recipes` key, since either one throws before anything is persisted.
- The login page is not part of this model, including its own form rules (email syntax, a required password) and its failure-message fallback. The app shell with its seed recipes and routes, the recipe card, header, footer and hero are not part of this model either.
- The `console.error` logging in each `catch` of src/lib/auth.ts is not modelled; it has no effect on the replies or the stored keys.
- Concurrent writes to one key from two browser tabs are not modelled.
- Three behaviours of the code are modelled as written, though a reader may not expect them:
  - a `registerUser` whose session write fails has already stored the new user;
  - a storage fault during `loginUser` replies "Login failed. Please try again.", not the invalid-credentials message;
  - an empty uploaded preview falls through to the image URL field, because the code tests truthiness.
