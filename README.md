# Video update parameters

A model of `VideoUpdateMetadata`, the record a Vimeo API client fills in to
change a video. The record has nine optional properties, from the title to the
download permission, plus an optional nested spatial (360°) record. Its
`GetParameterValues()` turns the record into the flat string dictionary that an
update request sends.

The method starts from an empty dictionary. It then runs nine conditional
inserts, in source order:

- `name` and `description` are written trimmed;
- the three privacy enums are written as their names, lower-cased, under
  `privacy.view`, `privacy.embed` and `privacy.comments`;
- `password` is written whenever the privacy is `Password`, with the password
  exactly as given, even when it is `null`;
- the three tri-state booleans are written as `"true"` or `"false"`, under
  `review_page`, `privacy.download` and `privacy.add`.

Last, when there is a spatial record, that record's own `SetParameterValues`
writes into the same dictionary under the prefix `"spatial"`.

Layout:

- `Wrappers.dfy`: `Option` and a map lookup that returns an `Option`.
- `Enums.dfy`: the three enums. Each value is represented by the string its
  `ToString()` returns, and only the privacy value `Password` is named.
- `DotNetString.dfy`: `String.Trim()` over the `char.IsWhiteSpace` table and
  `String.ToLower()`, with lemmas that characterise both.
- `Models.dfy`:
  - the record, as a datatype generic in the spatial record's type;
  - the nine keys;
  - the table `Row` of what each key receives;
  - `Inserted`, the dictionary after the first `n` inserts;
  - `GetParameterValues`, written as the nine conditional inserts into a
    dictionary variable. It is proved equal to `OwnParameters`, the table
    written in order, or to what the spatial writer makes of it.
- `Properties.dfy`: what the dictionary holds, key by key. It also covers
  which keys are present, that none is written twice, and that each entry
  depends only on its own fields.
- `Examples.dfy`: concrete records and the exact dictionaries they lead to.

The spatial record's `SetParameterValues` is not part of this model. The method
takes it as a parameter of type `(S, Parameters, string) -> Parameters`: given
the spatial record, the dictionary so far and the prefix, it returns the
dictionary afterwards.

## Model

| member | source | states |
|---|---|---|
| Models.GetParameterValues | src/VimeoDotNet/Models/VideoUpdateMetadata.cs:88-141 | Without a spatial record, the result is exactly the nine conditional inserts made in order into an empty dictionary. With one, the result is what the spatial writer makes of that dictionary under the prefix `"spatial"`. |
| Properties.InsertedFollowsTable | src/VimeoDotNet/Models/VideoUpdateMetadata.cs:90-135 | After the first `n` inserts, each of the first `n` keys holds its row's value when its field is set and is absent otherwise. No other key is present. |
| Properties.InsertAddsNewKey | src/VimeoDotNet/Models/VideoUpdateMetadata.cs:90-135 | No insert overwrites an earlier one: the key of the next insert is not yet in the dictionary. |
| Properties.OwnParametersFollowTable | src/VimeoDotNet/Models/VideoUpdateMetadata.cs:90-135 | Key by key, the dictionary that the nine inserts build, in the source's order, is the record's table of entries. |
| Properties.FixedKeysDistinct | src/VimeoDotNet/Models/VideoUpdateMetadata.cs:94-134 | The nine keys the record writes are pairwise distinct. |
| Properties.NameEntry | src/VimeoDotNet/Models/VideoUpdateMetadata.cs:92-95 | `name` is present exactly when `Name` is set. It then holds `Trim(Name)`: a contiguous piece of `Name` cut off only at white space, with no white space at either end. |
| Properties.DescriptionEntry | src/VimeoDotNet/Models/VideoUpdateMetadata.cs:97-100 | `description` is present exactly when `Description` is set. It then holds `Trim(Description)`, with the same characterisation. |
| Properties.PrivacyViewEntry | src/VimeoDotNet/Models/VideoUpdateMetadata.cs:102-105 | `privacy.view` is present exactly when `Privacy` is set. It then holds a non-null value: the enum's name with each upper-case letter lower-cased, same length, nothing else changed. |
| Properties.PasswordEntry | src/VimeoDotNet/Models/VideoUpdateMetadata.cs:107-110 | `password` is present exactly when `Privacy` is `Password`. It then holds `Password` unchanged, `null` included. |
| Properties.PrivacyEmbedEntry | src/VimeoDotNet/Models/VideoUpdateMetadata.cs:112-115 | `privacy.embed` is present exactly when `EmbedPrivacy` is set. It then holds the enum's name lower-cased. |
| Properties.PrivacyCommentsEntry | src/VimeoDotNet/Models/VideoUpdateMetadata.cs:117-120 | `privacy.comments` is present exactly when `Comments` is set. It then holds the enum's name lower-cased. |
| Properties.BooleanEntries | src/VimeoDotNet/Models/VideoUpdateMetadata.cs:122-135 | Each of `review_page`, `privacy.download` and `privacy.add` is present exactly when its boolean has a value. It holds `"true"` exactly when the value is `true`, and `"false"` exactly when it is `false`. |
| Properties.OwnKeysAreSetFieldKeys | src/VimeoDotNet/Models/VideoUpdateMetadata.cs:90-135 | The record writes exactly the keys whose field is set, where `password` counts as set when `Privacy` is `Password`. |
| Properties.OwnKeysAreFixedKeys | src/VimeoDotNet/Models/VideoUpdateMetadata.cs:90-135 | Every key the record writes is one of the nine fixed keys. |
| Properties.NothingWritten | src/VimeoDotNet/Models/VideoUpdateMetadata.cs:90-135 | The record writes an empty dictionary exactly when none of the eight fields that lead to a key is set. |
| Properties.EntryDependsOnlyOnItsFields | src/VimeoDotNet/Models/VideoUpdateMetadata.cs:92-135 | Two records that agree on the fields behind a key agree on that key's entry. For `password` those fields are `Privacy` and `Password`. |
| DotNetString.TrimStartCut | src/VimeoDotNet/Models/VideoUpdateMetadata.cs:94 | `TrimStart` keeps a suffix of its input and drops only white space. Its result does not start with white space. |
| DotNetString.TrimEndCut | src/VimeoDotNet/Models/VideoUpdateMetadata.cs:94 | `TrimEnd` keeps a prefix of its input and drops only white space. Its result does not end with white space. |
| DotNetString.TrimStartAt | src/VimeoDotNet/Models/VideoUpdateMetadata.cs:94 | When exactly the first `i` characters are white space, `TrimStart` cuts exactly there. |
| DotNetString.TrimEndAt | src/VimeoDotNet/Models/VideoUpdateMetadata.cs:94 | When exactly the characters from `j` on are white space, `TrimEnd` cuts exactly there. |
| DotNetString.TrimCut | src/VimeoDotNet/Models/VideoUpdateMetadata.cs:94 | `Trim` returns `s[i..j]`, where `s[..i]` and `s[j..]` are white space and `s[i..j]` has none at its edges. |
| DotNetString.TrimUnique | src/VimeoDotNet/Models/VideoUpdateMetadata.cs:99 | Any such cut of `s` is the one `Trim` makes. |
| DotNetString.TrimNoEdgeWhiteSpace | src/VimeoDotNet/Models/VideoUpdateMetadata.cs:99 | `Trim`'s result has no white space at either end and is no longer than its input. |
| DotNetString.TrimIdempotent | src/VimeoDotNet/Models/VideoUpdateMetadata.cs:99 | Trimming twice gives the same as trimming once. |
| DotNetString.ToLowerIsLowerCase | src/VimeoDotNet/Models/VideoUpdateMetadata.cs:104 | `ToLower` keeps the length and leaves no upper-case letter. It keeps every other character in place. |
| DotNetString.ToLowerFixesLowerCase | src/VimeoDotNet/Models/VideoUpdateMetadata.cs:114 | A string that is already lower case is its own lower-cased form. |
| DotNetString.ToLowerIdempotent | src/VimeoDotNet/Models/VideoUpdateMetadata.cs:119 | Lower-casing twice gives the same as lower-casing once. |
| Examples.TrimmedNameAndUnlisted | src/VimeoDotNet/Models/VideoUpdateMetadata.cs:92-105 | Name `" My Video "` with privacy `Unlisted` writes exactly `{name: "My Video", privacy.view: "unlisted"}`. |
| Examples.PasswordPrivacy | src/VimeoDotNet/Models/VideoUpdateMetadata.cs:102-110 | Privacy `Password` with password `"abc123"` writes exactly `{privacy.view: "password", password: "abc123"}`. |
| Examples.PasswordPrivacyWithoutPassword | src/VimeoDotNet/Models/VideoUpdateMetadata.cs:107-110 | Privacy `Password` without a password still writes `password`, with a `null` value. |
| Examples.FalseIsNotUnset | src/VimeoDotNet/Models/VideoUpdateMetadata.cs:127-130 | `AllowDownloadVideo = false` writes exactly `{privacy.download: "false"}`, and an unset value writes no such key. |
| Examples.AllUnset | src/VimeoDotNet/Models/VideoUpdateMetadata.cs:90-140 | A record with nothing set and no spatial record writes an empty dictionary. |

## Left out

- The spatial record's `SetParameterValues` (line 137) is a parameter of the method. Nothing is claimed about the keys it writes, or about whether it overwrites the record's own keys.
- The enum member lists are not modelled. An enum value is represented by the string its `ToString()` returns: its declared name for a named member, a number for an unnamed value, a comma-separated list for a `[Flags]` combination. Only the privacy value `Password` is concrete, because the method tests for it.
- `String.ToLower()` is culture-sensitive and covers all of Unicode. The model lower-cases only the ASCII letters `A` to `Z`, each to its ASCII partner. On ASCII text this matches `ToLower()` in every culture except the Turkic ones (tr, az), where `I` becomes the dotless `ı` (U+0131); that culture-specific rule is not modelled.
- `String.Trim()` is modelled over the `char.IsWhiteSpace` table. A model string is a sequence of Unicode scalar values, not of UTF-16 code units: a surrogate pair is one model character, and a .NET string that holds an unpaired surrogate has no counterpart. Trimming gives the same result either way, because no white-space character is a surrogate or lies outside the Basic Multilingual Plane.
- The record is a value, so it is unchanged by the call by construction. The setters and getters of the nine properties are the datatype's fields and its update syntax.
- The C# `Dictionary` is updated in place. The model threads a `map` value through the nine inserts instead; no other code sees the dictionary while they run. The spatial record's `SetParameterValues` receives that same dictionary by reference. It is modelled as a function from the dictionary before to the dictionary after, so a reference the writer keeps and changes later is not modelled.
- `IDictionary` iteration order is not modelled: the result is a map.
- The `[PublicAPI]` and `[CanBeNull]` annotations have no counterpart.
- Sending the dictionary over HTTP is not part of this model.
