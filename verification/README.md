# Property listings front end, modelled in Dafny

This project models the logic of a React front end for property listings. The page components carry the logic:

- the two admin tables filter listings on search text, type, price bucket and status;
- the details page picks "similar properties";
- a three-step wizard adds a listing, and an edit page loads a listing into a form and puts it back;
- a management page edits a form record field by field;
- two dashboards count, de-duplicate and tally listings;
- login and sign-up check credentials;
- the catalogue card and the details page make display decisions;
- a route guard protects the admin pages.

The model has one module per component, plus four base modules:

- `Values`: optional fields, loosely typed JSON values and truthiness, HTTP outcomes, browser storage.
- `Text`: ASCII case mapping, `includes`/`indexOf`, first-occurrence `replace`, capitalising.
- `Numbers`: `parseInt` and `parseFloat` over exact decimals.
- `Seqs`: `filter`, subsequences, `slice`, `reverse`, `Set` de-duplication, counting.

A listing is the datatype `Listings.Listing`. Every field is an `Option`, because optional chaining on a missing field gives `undefined`, which counts as false. The JSON key `type` is `kind` and `_id` is `mongoId`.

The models take three forms:

- Components that only compute are datatypes and functions.
- Components whose handlers change state step by step are classes. Their fields are the component's state, and their methods are the handlers, each with a `modifies` clause and its full new state in its `ensures`. Examples are `AddProperty.Wizard`, `EditProperty.EditForm`, `PropertyManagement.ManagementPage`, `Login.LoginPage`, `Dashboard.DashboardPage` and `SingleFlat.DetailsPage`.
- The loops of the source are methods with loop invariants, proved against specification functions: the key-copying and amenity loops of the edit loader, the per-type tally of the dashboard, and the image list of the details page.

HTTP requests are inputs: each request's outcome is a `Response` parameter (the body, or a failure with the server's message). Fresh ids (`Date.now()`), object URLs of chosen files, and the form library's verdict on a page of fields are parameters too. Where a handler would throw on missing data (the admin price filter on a listing without a price, the edit loader on a listing without owner, details, a string area, a furnished flag or amenities), the model makes that case explicit. The price filter returns `None`; the edit loader stops and flags the failure.

Two round trips of the edit page hold only in part, and the model states both sides:

- The area suffix " sq ft" round-trips whenever the stored prefix does not itself contain the suffix (`EditProperty.AreaRoundTrip`). The converse fails: `" sq ft"` comes back unchanged (`AreaRoundTripDespiteSuffix`), while `"5 sq ft0"` is lost (`AreaLostInTheMiddle`).
- Amenity labels come back only when they are a lower-case key with its first letter upper-cased. "WiFi" comes back as "Wifi". A label that is an array index, such as "24", moves to the front, because `Object.entries` lists such keys first (`EditProperty.IndexLabelComesFirst`).
- The loader writes each label with `setValue("amenities." + label)`, and the form library reads that name as a path. It deletes the characters `" ' | ]`, cuts the name at the first `.` or `[`, and skips empty segments. So "Kid's room" comes back as "Kids room" (`EditProperty.ApostropheDropped`) and "Sq.ft" as "Sq" (`EditProperty.DotCutsLabel`). A label that leaves no segment at all, such as "", sets the whole group to `true`, and no label comes back (`EditProperty.EmptyLabelClears`). The round-trip lemmas therefore hold for labels the path syntax leaves whole (`Payload.PlainName`).
- Both forms render the same nine checkboxes, `amenities.parking` to `amenities.gym`. On the add page they register unchecked, in list order, when the second step first shows, and a click changes its own entry in place. So the posted labels always follow the list order, not the order of the clicks (`AddProperty.PostedInListOrder`, `AddProperty.ClickOrderIgnored`). On the edit page the checkboxes mount after the load. A loaded label that is one of the nine keeps its entry and its place, and the others enter unchecked after the loaded ones (`EditProperty.EditForm.MountCheckboxes`).

Login and sign-up submit only what both the browser and the form library accept. The e-mail input has `type="email"`, so the browser first checks the value against the e-mail grammar of the HTML Living Standard (section 4.10.5.1.5). The form library then applies its `required`, `pattern` and `minLength` rules. `Patterns.IsHtmlEmail` is that grammar. The library's pattern accepts addresses the browser refuses, such as "a@-b.com" (`Patterns.DashedLabelBlocked`) and "a@b..com" (`Patterns.DoubleDotBlocked`). The browser accepts "a@b", which the pattern then refuses (`Patterns.BareHostStopsAtPattern`).

Every input of the add, edit and login forms registers with the form library as it mounts. A field the form already holds keeps its value, and the input is set to show it. A field that is still undefined takes the input's own value: "" for an empty text, number, e-mail or telephone box, null for a radio group with nothing checked, and the first option for a select (`Payload.Mount`, `Payload.MountSpec`). So a form field that has been on screen is never posted as undefined.

- On the add page, each step's inputs mount when that step shows (`AddProperty.Wizard.ShowPage`). The first render leaves the title, price and description as "" and the type as null (`AddProperty.FirstRender`). A location nobody picked on the map is posted as "", the value of the read-only location box (`AddProperty.UnpickedLocationPostedEmpty`). Showing a page again changes nothing (`AddProperty.ShownAgain`).
- On the edit page the whole form mounts once loading ends (`EditProperty.EditForm.MountForm`). A listing without a description, or an owner without a phone, is put back with "" (`EditProperty.ResubmitKeepsTopFields`, `EditProperty.ResubmitKeepsOwner`).

The type does not round-trip at all. The loader writes the stored type under the key "type", but the submit reads `propertyType`, the value of the type select, which the loader never sets (`EditProperty.TypeNotLoaded`). Unless the user picks a type, the select mounts with its first option, "flat", and that is what is put back (`EditProperty.UntouchedTypePutsFlat`).

## Model

| member | source | states |
|---|---|---|
| Values.OrElse | src/components/FlatCard.jsx:32 | `a \|\| b` on optional strings: `a` when it is present and non-empty, otherwise `b` |
| Values.GetItem | src/components/dashboard/AdminRoute.jsx:6 | `getItem` gives a value exactly for a stored key, and that key's value |
| Text.ToLower | src/components/dashboard/Properties.jsx:68 | `toLowerCase` keeps the length and lower-cases each character |
| Text.Capitalize | src/Pages/AddProperties.jsx:74 | only the first character is upper-cased; the rest is kept |
| Text.FindFrom | src/components/dashboard/Properties.jsx:68 | the first occurrence at or after `k`, or none at all |
| Text.ContainsIff | src/components/dashboard/Properties.jsx:68 | `includes` holds iff the substring occurs at some index |
| Text.ContainsEmpty | src/components/dashboard/Properties.jsx:68 | every string includes the empty search term |
| Text.RemoveFirst | src/components/dashboard/EditProperty.jsx:69 | `replace` with a string pattern cuts out the first occurrence only, shortening by the pattern's length, and leaves a string without it unchanged |
| Text.Utf16Length | src/Pages/Signup.jsx:91-93 | `length` counts UTF-16 code units: between one and two per character, one per character below U+10000 |
| Numbers.ParseIntShowNat | src/Pages/AddProperties.jsx:82 | `parseInt(String(n)) == n` for every natural number |
| Numbers.ParseFloatShowNat | src/components/SimilarProperties.jsx:43 | `parseFloat(String(n)) == n` for every natural number |
| Numbers.NumeralStart | src/Pages/AddProperties.jsx:82 | the numeral read after leading white space is a suffix of the input; an all-digit string is read whole |
| Numbers.ParseInt | src/Pages/AddProperties.jsx:82 | `parseInt` is NaN for a string without digits and the decimal value for a string of digits |
| Numbers.ParseMagnitude | src/Pages/AddProperties.jsx:82 | the unsigned part of `parseInt`: NaN without digits, the decimal value of a digit string |
| Numbers.ParseFloat | src/components/SimilarProperties.jsx:43 | `parseFloat` is NaN for a string without digits and the whole number for a string of digits |
| Numbers.ParseUnsignedDecimal | src/components/SimilarProperties.jsx:43 | the unsigned part of `parseFloat`: non-negative, NaN without digits, the whole number for a digit string |
| Seqs.FilterSpec | src/components/dashboard/Properties.jsx:65 | `filter` keeps exactly the passing elements, each as many times as it occurs, as an order-preserving subsequence, and keeps all when all pass |
| Seqs.FilterCount | src/components/dashboard/Properties.jsx:65 | `filter` keeps every copy of a passing element and no copy of a failing one |
| Seqs.Take | src/components/SimilarProperties.jsx:50 | `slice(0, n)` is the prefix of length min(n, length) |
| Seqs.Last | src/components/dashboard/Dashboard.jsx:81 | `slice(-n)` is the suffix of length min(n, length) |
| Seqs.Reverse | src/components/dashboard/Dashboard.jsx:81 | `reverse` puts element `length-1-i` at index `i` |
| Seqs.Dedup | src/components/dashboard/Dashboard.jsx:71 | `[...new Set(s)]` has no duplicates, has the same members as `s`, and is no longer than `s` |
| Seqs.NoDuplicatesCard | src/components/dashboard/DashboardHome.jsx:20 | a list without duplicates has as many members as entries |
| Seqs.DedupCard | src/components/dashboard/DashboardHome.jsx:20 | `new Set(s).size` is the number of distinct members of `s` |
| AdminFilter.PriceRangeOfNumeral | src/components/dashboard/Properties.jsx:58-63 | a whole-number price is low below 10000, medium below 50000 and high otherwise |
| AdminFilter.PriceRangeBoundaries | src/components/dashboard/Properties.jsx:60-61 | 9999 is low, 10000 and 49999 are medium, 50000 is high |
| AdminFilter.PriceRangeWithoutDigits | src/components/dashboard/Properties.jsx:59-62 | a price with no digit parses to NaN, fails both comparisons and is high |
| AdminFilter.PriceRangeExample | src/components/dashboard/Properties.jsx:59 | stripping non-numeric characters turns "NPR 45,000" into 45000, which is medium |
| AdminFilter.PriceRange | src/components/dashboard/Properties.jsx:58-63 | a price whose stripped text parses is low iff below 10000 and medium iff from 10000 to below 50000; an unparsable one is high |
| AdminFilter.FilterProperties | src/components/dashboard/Properties.jsx:65-82 | the result is an order-preserving subsequence; a listing is kept, with all its copies, iff search, type, price bucket and status all hold; with a bucket selected, any listing without a price makes the filter throw |
| AdminFilter.MissingTypeNeverMatches | src/components/dashboard/Properties.jsx:73 | a listing without a type fails every type filter but "all" |
| AdminFilter.TypeIgnoresCaseStatusDoesNot | src/components/dashboard/Properties.jsx:73-79 | the type comparison ignores case; the status comparison is exact |
| AdminFilter.AllFiltersOff | src/components/dashboard/Properties.jsx:67-70 | with every selection off, the full list comes back iff each listing has a title, location or description |
| ManagementFilter.FilterProperties | src/components/dashboard/PropertiesManagement.jsx:42-48 | an order-preserving subsequence; a listing is kept, with all its copies, iff (title or location contains the term, ignoring case) and the exact status and exact type tests pass |
| ManagementFilter.DescriptionIgnored | src/components/dashboard/PropertiesManagement.jsx:43-44 | changing a listing's description never changes whether it is kept |
| ManagementFilter.EmptySearchKeepsTitledOrLocated | src/components/dashboard/PropertiesManagement.jsx:43-44 | with an empty search and both selections at "all", exactly the listings with a title or a location survive |
| ManagementFilter.StatusColor | src/components/dashboard/PropertiesManagement.jsx:50-61 | available, rented and booked get green, red and yellow; everything else gets gray |
| ManagementFilter.StatusColorsDistinct | src/components/dashboard/PropertiesManagement.jsx:50-61 | the three status colours and the default are four different classes |
| Similar.Candidates | src/components/SimilarProperties.jsx:37-49 | an order-preserving subsequence of the fetched list; a listing is kept, with all its copies, iff its `_id` differs from the current id and it is similar |
| Similar.SelectSimilar | src/components/SimilarProperties.jsx:37-50 | at most 8 entries; a prefix of the candidates that is all of them when fewer than 8; never the current listing; every entry has a location and a price |
| Similar.FetchSimilar | src/components/SimilarProperties.jsx:27-52 | a falsy id, location or reference price, or a failed fetch, leaves the list as it was; otherwise it is the selection |
| Similar.UnkeyedListingNotExcluded | src/components/SimilarProperties.jsx:38 | a similar listing without `_id` is never dropped by the identity test |
| Similar.SimilarWholePrices | src/components/SimilarProperties.jsx:42-48 | over whole-number prices the 20% rule is 5·\|p − c\| ≤ c |
| Patterns.ParseEmail | src/Pages/Signup.jsx:75 | an accepted string is the rendering of well-formed local, domain and top-level parts |
| Patterns.ParseEmailComplete | src/Pages/Signup.jsx:75 | every string of the e-mail expression is recognised, with its parts |
| Patterns.IsEmailIff | src/Pages/Signup.jsx:75 | the recogniser accepts exactly the language of the e-mail expression |
| Patterns.EmailHasOneAt | src/Pages/Signup.jsx:75 | an accepted address has exactly one `@` |
| Patterns.ParsePhone | src/Pages/AddProperties.jsx:409 | an accepted string is the rendering of well-formed phone parts |
| Patterns.ParsePhoneComplete | src/Pages/AddProperties.jsx:409 | every string of the phone expression is recognised, with its parts |
| Patterns.IsPhoneIff | src/Pages/AddProperties.jsx:409 | the recogniser accepts exactly the language of the phone expression |
| Patterns.PhoneDigits | src/Pages/AddProperties.jsx:409 | every accepted phone number has 10 to 12 digits |
| Patterns.TooManyDigits | src/Pages/AddProperties.jsx:409 | a string with more than 12 digits is never accepted |
| Patterns.LocalMobileAccepted | src/Pages/AddProperties.jsx:409 | "9812345678" is accepted |
| Patterns.CountryCodeRejected | src/Pages/AddProperties.jsx:409-414 | a number shaped like the placeholder, "+977 9812345678", has 13 digits and is rejected |
| Patterns.IsHtmlEmail | src/Pages/Login.jsx:55 | the browser's e-mail grammar, read left to right: local characters, "@", then a hostname. The predicate has no contract of its own: `Patterns.HtmlEmailComplete` and `Patterns.HtmlEmailSound` state what it accepts |
| Patterns.HostnameComplete | src/Pages/Login.jsx:55 | every dot-joined sequence of labels of 1 to 63 letters, digits and inner hyphens is a hostname |
| Patterns.HostnameSound | src/Pages/Login.jsx:55 | every hostname is such a dot-joined sequence of labels |
| Patterns.HtmlEmailComplete | src/Pages/Login.jsx:55 | local characters, "@" and a dot-joined sequence of labels form a valid address |
| Patterns.HtmlEmailSound | src/Pages/Login.jsx:55 | every valid address is local characters, "@" and a dot-joined sequence of labels |
| Patterns.DashedLabelBlocked | src/Pages/Signup.jsx:69-78 | "a@-b.com" matches the form library's pattern, but the browser refuses it |
| Patterns.DoubleDotBlocked | src/Pages/Signup.jsx:69-78 | "a@b..com" matches the pattern, but the browser refuses it |
| Patterns.BareHostStopsAtPattern | src/Pages/Signup.jsx:69-78 | the browser accepts "a@b", and the pattern rule refuses it |
| Patterns.CheckRequired | src/Pages/Signup.jsx:50 | a required field errs exactly when it is empty |
| Patterns.CheckPassword | src/Pages/Signup.jsx:89-95 | the password passes iff it has at least 6 UTF-16 code units; empty is "required" and 1 to 5 code units is "too short"; 6 characters always pass |
| Patterns.AstralPasswordAccepted | src/Pages/Signup.jsx:91-93 | three emoji, three characters but six code units, pass the length rule |
| Patterns.CheckEmail | src/Pages/Signup.jsx:72-78 | the e-mail passes iff it matches the pattern; empty is "required" |
| Patterns.CheckPhone | src/Pages/AddProperties.jsx:406-412 | the phone passes iff it matches the pattern; empty is "required" |
| Payload.Stringify | src/components/dashboard/EditProperty.jsx:133 | `String(v)` of a string is the string itself |
| Payload.CountField | src/Pages/AddProperties.jsx:82-83 | `parseInt(v) \|\| null` is never 0 |
| Payload.CountFieldOfNat | src/Pages/AddProperties.jsx:82-83 | a whole number, typed or stored, comes back as itself, except 0, which becomes null |
| Payload.CountFieldMissing | src/Pages/AddProperties.jsx:82-83 | undefined, null and "" give null |
| Payload.AmenityLabels | src/Pages/AddProperties.jsx:72-74 | there are never more labels than checkbox entries |
| Payload.AmenityLabelsAllOrNone | src/Pages/AddProperties.jsx:72-74 | nothing checked gives no labels; everything checked gives every key capitalised, in entry order |
| Payload.AmenityLabelsSpec | src/Pages/AddProperties.jsx:72-74 | a label is produced iff some checked entry's key, capitalised, equals it |
| Payload.AmenityLabelsAppend | src/Pages/AddProperties.jsx:72-74 | labels follow entry order: a last entry contributes last, and only when checked |
| Payload.AmenityLabelsConcat | src/Pages/AddProperties.jsx:72-74 | the labels of two groups of entries, one after the other, are their labels one after the other |
| Payload.ReplaceAt | src/components/dashboard/EditProperty.jsx:74 | setting an existing key changes only the entry at its first index |
| Payload.SetListed | src/Pages/AddProperties.jsx:346-353 | once the group holds one entry per checkbox in list order, a click on checkbox i changes entry i only, and the group stays in list order |
| Payload.ListedLabels | src/Pages/AddProperties.jsx:72-74 | a group in list order posts some of the capitalised ids, in list order |
| Payload.RegisterFresh | src/Pages/AddProperties.jsx:346-353 | on an empty group, distinct ordinary ids register unchecked, in render order |
| Payload.RegisterPresent | src/components/dashboard/EditProperty.jsx:371-378 | checkboxes whose keys the group already holds change nothing when they register |
| Payload.MountValue | src/Pages/AddProperties.jsx:433-440 | a held value stays; an undefined field takes the input's own value, "" for the empty location box |
| Payload.MountSpec | src/components/dashboard/EditProperty.jsx:208-418 | after inputs with distinct names mount, each of their fields holds its earlier value or, when undefined, its input's own value; every other field is unchanged |
| Payload.MountAgain | src/Pages/AddProperties.jsx:233-440 | mounting the same inputs again changes nothing |
| Payload.MountDefined | src/Pages/AddProperties.jsx:233-440 | inputs whose fields the form already holds change nothing |
| Payload.RegisterKeepsLabels | src/components/dashboard/EditProperty.jsx:371-378 | registering ordinary ids adds exactly their keys, keeps every entry and leaves the posted labels as they were |
| Payload.AmenityIdsPlain | src/Pages/AddProperties.jsx:19-29 | the nine checkbox ids are distinct and none is an array index |
| Payload.FirstSegment | src/components/dashboard/EditProperty.jsx:74 | the first segment of a path is non-empty and free of `.` and `[`; there is none iff the name has only such characters |
| Payload.AmenityKey | src/components/dashboard/EditProperty.jsx:74 | the key a name writes is non-empty; there is none iff every character is deleted or a separator |
| Payload.PlainKey | src/components/dashboard/EditProperty.jsx:74 | a name without deleted characters and separators writes under itself |
| Payload.OwnerOf | src/Pages/AddProperties.jsx:76-80 | the owner object is built from the three contact fields |
| AddProperty.RemoveAt | src/Pages/AddProperties.jsx:489-491 | removing index i shortens the list by one and keeps the other elements in order |
| AddProperty.NewArea | src/Pages/AddProperties.jsx:84 | the area is the entered value (or "" when falsy) followed by " sq ft" |
| AddProperty.NewRecord | src/Pages/AddProperties.jsx:64-87 | every field of the posted record: the fresh id, status "available", the first preview as image, labels from checked amenities, counts by `parseInt \|\| null`, suffixed area, and furnished iff the field is "true" |
| AddProperty.NeverFurnished | src/Pages/AddProperties.jsx:85 | without a "furnished" field, which the wizard never registers, a new listing is never furnished |
| AddProperty.ZeroBedroomsBecomeNull | src/Pages/AddProperties.jsx:82 | an entered 0 bedrooms is posted as null |
| AddProperty.PostedInListOrder | src/Pages/AddProperties.jsx:72-74 | from a group empty or in list order, the posted labels are some of the capitalised ids, in list order |
| AddProperty.PostedLabelNames | src/Pages/AddProperties.jsx:19-29 | the labels a new listing can carry are "Parking", "Wifi", "Ac", "Kitchen", "Water", "Laundry", "Security", "Furnished" and "Gym", in that order |
| AddProperty.ClickOrderIgnored | src/Pages/AddProperties.jsx:346-353 | checking "Gym" and then "Parking" posts "Parking" before "Gym" |
| AddProperty.LaterClickedFirstListed | src/Pages/AddProperties.jsx:346-353 | checking box j and then an earlier box i posts the label of i before that of j |
| AddProperty.FirstRender | src/Pages/AddProperties.jsx:235-298 | the first page mounts title, price and description as "" and the type as null, and nothing else |
| AddProperty.ShownDefines | src/Pages/AddProperties.jsx:233-440 | once a page has rendered, each of its fields holds its earlier value or its input's own value, and none is undefined |
| AddProperty.ShownAgain | src/Pages/AddProperties.jsx:509-512 | a page rendering again, after "Previous", leaves the form as its first rendering did |
| AddProperty.UnpickedLocationPostedEmpty | src/Pages/AddProperties.jsx:428-440 | a location never picked on the map is posted as "" |
| AddProperty.Wizard.constructor | src/Pages/AddProperties.jsx:11-17 | the wizard starts at step 1 with no images and no success page, and its first page mounts: title, price and description hold "" and the type null |
| AddProperty.Wizard.SetField | src/Pages/AddProperties.jsx:241 | typing changes only that form value |
| AddProperty.Wizard.SelectImages | src/Pages/AddProperties.jsx:38-44 | choosing files replaces the files and their previews together |
| AddProperty.Wizard.RemovePreview | src/Pages/AddProperties.jsx:488-493 | removing preview i deletes index i from both lists, which stay the same length |
| AddProperty.Wizard.ShowPage | src/Pages/AddProperties.jsx:233-440 | the current step's inputs mount: an undefined field takes its input's own value, a held one stays; on the second step the checkboxes register too |
| AddProperty.Wizard.ShowAmenities | src/Pages/AddProperties.jsx:346-353 | the second step's checkboxes register: on the first display unchecked, in list order; on a later display the group is kept |
| AddProperty.Wizard.SetAmenity | src/Pages/AddProperties.jsx:350-353 | a click changes its own entry in place, so the group stays in list order |
| AddProperty.Wizard.Previous | src/Pages/AddProperties.jsx:509-512 | Previous moves back one step only above step 1, and that page renders again; the step stays in 1..3 |
| AddProperty.Wizard.Reset | src/Pages/AddProperties.jsx:114-118 | the reset empties the form and both image lists and returns to step 1 |
| AddProperty.Wizard.Submit | src/Pages/AddProperties.jsx:55-109 | below step 3 a valid submit advances the step and the next page's inputs mount; at step 3 it posts the record; success resets to step 1 with empty lists and shows the added listing; failure changes nothing else |
| AddProperty.Wizard.Post | src/Pages/AddProperties.jsx:61-103 | on the last step the record built from the form and previews is sent; a success shows the added listing and resets the form, images and step; a failure changes nothing else |
| AddProperty.Wizard.Deliver | src/Pages/AddProperties.jsx:89-103 | the record is sent; a success shows the added listing and resets the form, images and step; a failure changes nothing else |
| AddProperty.Wizard.Send | src/Pages/AddProperties.jsx:89 | the POST sends the record and nothing else |
| AddProperty.Wizard.Succeed | src/Pages/AddProperties.jsx:90-102 | a successful POST shows the added listing and resets the form, both image lists and the step |
| AddProperty.Wizard.AddAnother | src/Pages/AddProperties.jsx:111-119 | "Add Another" hides the success page, resets the step and both lists, and the first page mounts again |
| EditProperty.TopValue | src/components/dashboard/EditProperty.jsx:57 | a key the listing lacks reads as undefined |
| EditProperty.CopyTop | src/components/dashboard/EditProperty.jsx:55-59 | the copy keeps every key already set, and amenities, owner and details read as before |
| EditProperty.CopyTopSpec | src/components/dashboard/EditProperty.jsx:55-59 | after the copy loop every top-level key but amenities, owner and details reads as the listing's value, and every other key as before |
| EditProperty.CopyKeys | src/components/dashboard/EditProperty.jsx:55-59 | the key-copying loop leaves exactly the values the copy function describes |
| EditProperty.CheckLabels | src/components/dashboard/EditProperty.jsx:73-75 | the amenity loop checks each stored label, lower-cased, in order |
| Payload.SetFlag | src/components/dashboard/EditProperty.jsx:74 | a new key goes where `Object.entries` lists it: last, unless it is an array index, which goes before larger indices and all other keys; an existing key keeps its place |
| Payload.InsertPos | src/components/dashboard/EditProperty.jsx:74 | the place of a new key: after every key listed before it, before the first key it precedes, and last when it is not an array index |
| Payload.Replace | src/components/dashboard/EditProperty.jsx:74 | setting an existing key keeps the length and every key at its index |
| Payload.ReplaceSpec | src/components/dashboard/EditProperty.jsx:74 | setting an existing key keeps all entries under other keys and stores the new value |
| Payload.SetFlagKeys | src/components/dashboard/EditProperty.jsx:74 | after a set the keys are the old keys plus the set one, which holds the new value; entries under other keys are kept |
| EditProperty.LoadFlagsKeys | src/components/dashboard/EditProperty.jsx:73-75 | the amenity loop adds no key but the path keys of the labels; when every label leaves a key, it adds exactly those keys, each checked |
| EditProperty.EditedArea | src/components/dashboard/EditProperty.jsx:133 | the submitted area always ends in " sq ft" |
| EditProperty.EditedRecord | src/components/dashboard/EditProperty.jsx:113-136 | the put record keeps the listing's id and the current status, takes the first preview when it is non-empty and the stored image otherwise, and maps the form fields like the add form |
| EditProperty.AreaRoundTrip | src/components/dashboard/EditProperty.jsx:69 | an area x + " sq ft" loads as x and is submitted as x + " sq ft" again when x does not contain " sq ft" |
| EditProperty.AreaRoundTripDespiteSuffix | src/components/dashboard/EditProperty.jsx:69 | the converse fails: " sq ft" contains the suffix and still round-trips |
| EditProperty.AreaLostInTheMiddle | src/components/dashboard/EditProperty.jsx:69 | "5 sq ft0 sq ft" loads as "50 sq ft" |
| EditProperty.FurnishedRoundTrip | src/components/dashboard/EditProperty.jsx:70 | `toString` on load and `=== "true"` on submit give back the boolean |
| EditProperty.LoadFlagsFresh | src/components/dashboard/EditProperty.jsx:73-75 | labels the path syntax leaves whole, whose lower-cased forms are distinct and not array indices, load as those lower-cased keys, checked, in order |
| EditProperty.LabelsOfLowered | src/components/dashboard/EditProperty.jsx:121-123 | capitalising the lower-cased keys gives back labels of the form "Parking" |
| EditProperty.AmenityRoundTrip | src/components/dashboard/EditProperty.jsx:73-75 | distinct labels of the form "Parking" that are not array indices and that the path syntax leaves whole come back unchanged, in the same order, after load and submit |
| EditProperty.WiFiComesBackAsWifi | src/components/dashboard/EditProperty.jsx:73-75 | "WiFi" comes back as "Wifi" |
| EditProperty.LowerOfIndexKey | src/components/dashboard/EditProperty.jsx:74 | lower-casing never turns a label into an array index: such a label is one already |
| EditProperty.IndexLabelLoadedFirst | src/components/dashboard/EditProperty.jsx:73-75 | a second label whose key is an array index is listed before a first one whose key is not |
| EditProperty.IndexLabelComesFirst | src/components/dashboard/EditProperty.jsx:121-123 | labels "Pool" then "24" come back as "24" then "Pool" |
| EditProperty.PlainKeyOf | src/components/dashboard/EditProperty.jsx:74 | a label the path syntax leaves whole is written under its lower-cased self |
| EditProperty.ApostropheDropped | src/components/dashboard/EditProperty.jsx:73-75 | the stored label "Kid's room" comes back as "Kids room" |
| EditProperty.DotCutsLabel | src/components/dashboard/EditProperty.jsx:73-75 | the stored label "Sq.ft" comes back as "Sq" |
| EditProperty.EmptyLabelClears | src/components/dashboard/EditProperty.jsx:73-75 | an empty label after "Pool" replaces the group, and no label comes back |
| EditProperty.KeysOf24AndPool | src/components/dashboard/EditProperty.jsx:74 | "Pool" is written under "pool", which is not an array index, and "24" under "24", which is |
| EditProperty.Reloaded | src/components/dashboard/EditProperty.jsx:47-81 | the form after a complete load and the first render: the loaded values with each input's own value where the load left a field undefined, the type select's value unless the listing carries "propertyType", and the labels of the loaded entries |
| EditProperty.ReloadedField | src/components/dashboard/EditProperty.jsx:208-277 | a top-level input reads back as the stored value, or as its own value when the listing lacks the key |
| EditProperty.ReloadedNested | src/components/dashboard/EditProperty.jsx:284-418 | an owner or details input reads back as the loaded value, or as its own value when that is undefined |
| EditProperty.LoadedPreviews | src/components/dashboard/EditProperty.jsx:77-79 | at most one preview, present iff the stored image is truthy, and then that image |
| EditProperty.Resubmitted | src/components/dashboard/EditProperty.jsx:113-136 | the record submitted straight after a load keeps the id and status, posts the type select's value ("flat" unless the listing has "propertyType"), and posts the labels of the loaded entries |
| EditProperty.TopFieldRoundTrip | src/components/dashboard/EditProperty.jsx:55-59 | a top-level key reads back from a fresh load as its stored value |
| EditProperty.TypeNotLoaded | src/components/dashboard/EditProperty.jsx:55-59 | the load fills "type" from the listing, but leaves the type select's `propertyType` unset unless the listing has that key |
| EditProperty.ResubmitKeepsTopFields | src/components/dashboard/EditProperty.jsx:113-124 | submitting straight after a load keeps id, image and status; title, description, location and price come back as stored, or "" when the listing lacks them; the type is "flat" unless the listing has "propertyType" |
| EditProperty.UntouchedTypePutsFlat | src/components/dashboard/EditProperty.jsx:223-232 | a listing without a "propertyType" key is put back untouched as a "flat" |
| EditProperty.ResubmitKeepsOwner | src/components/dashboard/EditProperty.jsx:125-129 | ... and the owner's three contact fields, "" for a missing one |
| EditProperty.ResubmitKeepsDetails | src/components/dashboard/EditProperty.jsx:130-135 | ... and the details, for whole room counts (0 becomes null) and an area with one suffix |
| EditProperty.ResubmitKeepsAmenities | src/components/dashboard/EditProperty.jsx:121-123 | ... and distinct amenity labels of the form "Parking" that are not array indices and that the path syntax leaves whole |
| EditProperty.LoadedNestedFields | src/components/dashboard/EditProperty.jsx:62-70 | a complete load writes the three owner fields and the four detail fields, with the area suffix stripped and furnished stringified |
| EditProperty.StatusBadgeClass | src/components/dashboard/EditProperty.jsx:157-168 | the badge is gray exactly for a status other than available, rented and booked |
| EditProperty.BadgesDistinct | src/components/dashboard/EditProperty.jsx:37-41 | the three status buttons get three different badges, none gray |
| EditProperty.EditForm.constructor | src/components/dashboard/EditProperty.jsx:12-16 | the page starts loading with an empty form and an empty status |
| EditProperty.EditForm.Load | src/components/dashboard/EditProperty.jsx:47-87 | a fetched listing sets the property, the status and the copied values; the loader stops at the first missing part and the failure is flagged; amenities and preview are set only by a complete load |
| EditProperty.EditForm.LoadListing | src/components/dashboard/EditProperty.jsx:49-81 | a fetched listing becomes the property and the current status, its keys are copied, and the nested parts are loaded |
| EditProperty.EditForm.LoadNested | src/components/dashboard/EditProperty.jsx:61-81 | owner, details and amenities are set in turn; the load fails exactly when a part is missing, and amenities and preview are set only by a complete load |
| EditProperty.EditForm.ChangeStatus | src/components/dashboard/EditProperty.jsx:97-108 | the current status changes only after the PATCH succeeds; nothing else changes |
| EditProperty.EditForm.SetField | src/components/dashboard/EditProperty.jsx:11 | typing changes only that form value |
| EditProperty.EditForm.SelectImages | src/components/dashboard/EditProperty.jsx:89-95 | choosing files replaces the files and the previews |
| EditProperty.EditForm.MountForm | src/components/dashboard/EditProperty.jsx:208-418 | once loading ends every input mounts: a field the load left undefined takes its input's own value, and the checkboxes register without changing the posted labels |
| EditProperty.EditForm.MountCheckboxes | src/components/dashboard/EditProperty.jsx:371-378 | once loading ends and the spinner gives way to the form, the nine checkboxes register in list order: the loaded entries keep their values and places, new keys enter unchecked, and the posted labels do not change |
| EditProperty.EditForm.SetAmenity | src/components/dashboard/EditProperty.jsx:376-378 | a click sets its entry to the new value and keeps the keys and every other entry |
| EditProperty.EditForm.Submit | src/components/dashboard/EditProperty.jsx:110-147 | a valid submit of a loaded listing puts the edited record; nothing is sent otherwise |
| PropertyManagement.With | src/components/dashboard/PropertyManagement.jsx:182 | editing a top-level field changes only that field |
| PropertyManagement.WithOwner | src/components/dashboard/PropertyManagement.jsx:293-298 | editing an owner sub-field changes only that sub-field; other owner fields and all top-level fields are kept |
| PropertyManagement.Toggle | src/components/dashboard/PropertyManagement.jsx:271-275 | checking appends at the end; unchecking removes every occurrence and keeps every copy of the other amenities, in order |
| PropertyManagement.ToggleOnOff | src/components/dashboard/PropertyManagement.jsx:271-275 | checking a new amenity and unchecking it restores the list |
| PropertyManagement.FromListing | src/components/dashboard/PropertyManagement.jsx:93-103 | the form copies the nine fields of the listing |
| PropertyManagement.ManagementPage.constructor | src/components/dashboard/PropertyManagement.jsx:10-27 | the form starts empty with status "available", no amenities and closed |
| PropertyManagement.ManagementPage.Open | src/components/dashboard/PropertyManagement.jsx:133 | "Add Property" opens the form as it is |
| PropertyManagement.ManagementPage.SetField | src/components/dashboard/PropertyManagement.jsx:182 | a top-level input changes only its field |
| PropertyManagement.ManagementPage.SetOwnerField | src/components/dashboard/PropertyManagement.jsx:293-298 | an owner input changes only its sub-field |
| PropertyManagement.ManagementPage.ToggleAmenity | src/components/dashboard/PropertyManagement.jsx:265-275 | a click on a checkbox, whose new state is the opposite of its amenity being listed, toggles that amenity in the form and changes nothing else |
| PropertyManagement.ManagementPage.Edit | src/components/dashboard/PropertyManagement.jsx:91-105 | the edit button copies the listing, records it as edited and opens the form |
| PropertyManagement.ManagementPage.Submit | src/components/dashboard/PropertyManagement.jsx:50-348 | a form the browser refuses (a `required` field empty, a bad e-mail or number) changes nothing; otherwise an update is sent with the edited listing's id and a creation with the fresh id; after success the form is reset and closed; after failure nothing else changes |
| PropertyManagement.ManagementPage.Close | src/components/dashboard/PropertyManagement.jsx:149-167 | the × button closes and resets the form |
| PropertyManagement.ManagementPage.Cancel | src/components/dashboard/PropertyManagement.jsx:357-360 | Cancel closes the form but leaves its stale values |
| Dashboard.AvailableCount | src/components/dashboard/Dashboard.jsx:70 | the available count never exceeds the number of listings |
| Dashboard.AvailableCountZero | src/components/dashboard/Dashboard.jsx:70 | the count is 0 iff no listing's status is exactly "available" |
| Dashboard.TruthyKinds | src/components/dashboard/Dashboard.jsx:71 | the truthy types are no more than the listings |
| Dashboard.TruthyKindsSpec | src/components/dashboard/Dashboard.jsx:71 | a type survives `filter(Boolean)` iff it is non-empty and some listing has it |
| Dashboard.DistinctTypes | src/components/dashboard/Dashboard.jsx:71 | the distinct types have no duplicates and are no more than the listings |
| Dashboard.DistinctTypesSpec | src/components/dashboard/Dashboard.jsx:71 | a type is counted iff it is non-empty and some listing has it |
| Dashboard.Recent | src/components/dashboard/Dashboard.jsx:81 | the last min(5, n) listings, the last one first |
| Dashboard.TallySeen | src/components/dashboard/Dashboard.jsx:137 | one more listing of a seen type bumps that type's count and keeps the tally |
| Dashboard.TallyFresh | src/components/dashboard/Dashboard.jsx:137 | the first listing of a type appends it with count 1 and keeps the tally |
| Dashboard.TallyPositive | src/components/dashboard/Dashboard.jsx:140-142 | every tallied type has a positive count |
| Dashboard.TypeKey | src/components/dashboard/Dashboard.jsx:137 | a listing is tallied under `String(p.type)`: its type, or "undefined" |
| Dashboard.CountKeys | src/components/dashboard/Dashboard.jsx:135-138 | the counting loop yields the keys in first-seen order, each with its number of occurrences, summing to the number of keys |
| Dashboard.TypeStats | src/components/dashboard/Dashboard.jsx:134-144 | labels are distinct, `data[i]` counts listings of label i, the counts are positive and sum to the number of listings |
| Dashboard.DashboardPage.constructor | src/components/dashboard/Dashboard.jsx:29-45 | every figure starts at zero or empty |
| Dashboard.UserCount | src/components/dashboard/Dashboard.jsx:60-66 | the user total is the length of the fetched list, and 0 when that request fails |
| Dashboard.DashboardPage.Load | src/components/dashboard/Dashboard.jsx:51-117 | a failed listings request keeps every figure and reports the error; otherwise all figures are computed, with totalUsers 0 when the users request failed |
| Dashboard.DashboardPage.ShowCounts | src/components/dashboard/Dashboard.jsx:69-81 | a successful load sets the totals, the available count, the type count and the five recent listings, and clears the error |
| Dashboard.DashboardPage.ShowTypes | src/components/dashboard/Dashboard.jsx:96-101 | the chart's labels and counts are the per-type tally of the listings |
| DashboardHome.Kinds | src/components/dashboard/DashboardHome.jsx:20 | the types of the listings, missing ones included, in order |
| DashboardHome.CategoryCount | src/components/dashboard/DashboardHome.jsx:20-25 | categories are the number of distinct type values, missing included; never above properties, 0 iff there are none |
| DashboardHome.KindsSet | src/components/dashboard/DashboardHome.jsx:20 | the members of the mapped types are exactly the listings' type values |
| DashboardHome.FetchStats | src/components/dashboard/DashboardHome.jsx:13-30 | if either request fails the stats stay as they were; otherwise users and properties are the list lengths and categories the number of distinct type values |
| DashboardHome.CategoryMembers | src/components/dashboard/DashboardHome.jsx:20 | a value is a category iff some listing has it as its type, a missing type included |
| DashboardHome.UntypedIsACategory | src/components/dashboard/DashboardHome.jsx:20 | one untyped and one typed listing make two categories |
| Login.FindUser | src/Pages/Login.jsx:23 | the first user in list order whose e-mail and password both match, or none when no user matches |
| Login.StoredPath | src/Pages/Login.jsx:16 | the stored path is `state.from` when present and non-empty, else "/" |
| Login.ReturnPath | src/Pages/Login.jsx:34 | the return path is the stored one when it is non-empty, else "/" (nothing stored or an empty string) |
| Login.ReturnToStoredPath | src/Pages/Login.jsx:16-34 | the path stored on mount is the one a later login returns to |
| Login.LoginPage.constructor | src/Pages/Login.jsx:8-12 | nobody is logged in and no notice is shown |
| Login.LoginPage.Mount | src/Pages/Login.jsx:14-18 | mounting stores the previous path and changes nothing else |
| Login.FieldsValidIff | src/Pages/Login.jsx:53-81 | the fields pass iff the e-mail is a valid address by both the browser's grammar and the pattern, and the password has 6 or more UTF-16 code units |
| Login.LoginPage.Submit | src/Pages/Login.jsx:20-55 | fields the browser or the rules refuse change nothing; a failed fetch reports "Login failed"; no match reports "Invalid credentials"; a match logs in the first matching user, navigates to the stored path and removes it |
| Login.LoginPage.Admit | src/Pages/Login.jsx:29-36 | the matched user is logged in, the stored path is removed and navigated to, and "Login successful" is shown |
| Signup.ValidIff | src/Pages/Signup.jsx:50-95 | the form is valid iff all fields are present, the e-mail is a valid address by both the browser's grammar and the pattern, and the password has 6 or more UTF-16 code units |
| Signup.ServerMessage | src/Pages/Signup.jsx:33 | the server's message when it is present and non-empty, otherwise "Failed to sign up" |
| Signup.NewAccount | src/Pages/Signup.jsx:20-25 | the posted record has exactly the four fields, copied from the form |
| Signup.Submit | src/Pages/Signup.jsx:11-78 | input the browser or the rules refuse does nothing; a found e-mail is "already registered" and creates nothing; an account is created iff the lookup is empty and the post succeeds; a failed request reports the server's message or "Failed to sign up" |
| Signup.CreatedAccountCanLogIn | src/Pages/Signup.jsx:20-27 | a created account passes the login rules and is found by the login lookup |
| AdminRoute.Guard | src/components/dashboard/AdminRoute.jsx:9-13 | children render iff the stored adminAuth is exactly "true" or the path is "/admin"; otherwise a redirect to "/admin" |
| AdminRoute.RedirectTargetRenders | src/components/dashboard/AdminRoute.jsx:8-11 | the redirect target is never redirected itself |
| AdminRoute.LogoutKeepsDecision | src/components/dashboard/DashboardLayout.jsx:10-11 | removing "isAdmin" on logout never changes the guard's decision |
| FlatCard.KnownIcon | src/components/FlatCard.jsx:9-16 | exactly the six lower-case keys have an icon |
| FlatCard.StatusColorIgnoresCase | src/components/FlatCard.jsx:18-29 | the colour ignores letter case; available, rented and booked in any case get green, red and yellow |
| FlatCard.StatusColorGray | src/components/FlatCard.jsx:18-29 | gray exactly for a missing status or one that is none of the three, ignoring case |
| FlatCard.ChipOf | src/components/FlatCard.jsx:95-103 | a chip shows the amenity with the icon of its lower-cased name, if any |
| FlatCard.Row | src/components/FlatCard.jsx:93-109 | there is a chip row iff amenities are present and non-empty |
| FlatCard.RowAccountsForAll | src/components/FlatCard.jsx:93-109 | at most the first 3 amenities in order; a "+n" count iff more than 3; shown plus n equals the total |
| FlatCard.Link | src/components/FlatCard.jsx:33 | the link uses `_id` when it is truthy, else `id`, and is "/flats/undefined" without either |
| FlatCard.Fallback | src/components/FlatCard.jsx:51 | a text field shows itself when non-empty, else its fallback |
| FlatCard.Render | src/components/FlatCard.jsx:7-73 | a missing listing renders nothing; otherwise the card's link, placeholder image, status colour, text fallbacks and chip row |
| FlatCard.MissingStatusReadsAvailableInGray | src/components/FlatCard.jsx:50-51 | a listing without status reads "Available" but is coloured gray |
| SingleFlat.BuildImages | src/Pages/SingleFlat.jsx:146-149 | pushing builds exactly the image list |
| SingleFlat.ImageList | src/Pages/SingleFlat.jsx:145-149 | no listing gives no images; otherwise one for a truthy main image plus one per additional image |
| SingleFlat.ImageListShape | src/Pages/SingleFlat.jsx:146-149 | the list is the main image (if present) followed by the additional images in order, of length [image ? 1 : 0] + \|additionalImages\| |
| SingleFlat.GalleryOf | src/Pages/SingleFlat.jsx:182-243 | no image gives the placeholder, one gives a single image, two or more give a carousel with a slide and a thumbnail per image |
| SingleFlat.SlideCounters | src/Pages/SingleFlat.jsx:207 | each slide counter reads k / n with 1 ≤ k ≤ n, k its own position |
| SingleFlat.AmenityIcon | src/Pages/SingleFlat.jsx:112-122 | the default arrow exactly when the lower-cased name is none of the six |
| SingleFlat.IconsAgreeWithCard | src/Pages/SingleFlat.jsx:112-122 | the details page and the card agree on every amenity the card has an icon for |
| SingleFlat.AmenityBlock | src/Pages/SingleFlat.jsx:299-314 | every amenity with its icon, or no block for a missing or empty list |
| SingleFlat.StatusBadge | src/Pages/SingleFlat.jsx:255-260 | green iff the status is exactly "available"; the text is the capitalised status, or "NaN" without one |
| SingleFlat.BadgeDisagreesWithCard | src/Pages/SingleFlat.jsx:256 | "Available" is green on the card but red on the details page |
| SingleFlat.ContactBlock | src/Pages/SingleFlat.jsx:322-363 | the contact block is blurred and covered by the login/signup overlay iff nobody is signed in |
| SingleFlat.OverlayLoginReturnsHere | src/Pages/SingleFlat.jsx:347-350 | logging in through the overlay comes back to this page |
| SingleFlat.DetailsPage.constructor | src/Pages/SingleFlat.jsx:24-28 | the page starts loading, without a listing or an error |
| SingleFlat.DetailsPage.Load | src/Pages/SingleFlat.jsx:99-110 | loading ends; a fetched body becomes the listing, a failure sets the error message |
| SingleFlat.DetailsPage.SelectThumbnail | src/Pages/SingleFlat.jsx:151-156 | a thumbnail click selects that slide |
| SingleFlat.DetailsPage.ToggleFullImage | src/Pages/SingleFlat.jsx:158-160 | the full-image view toggles |
| SingleFlat.DetailsPage.View | src/Pages/SingleFlat.jsx:124-143 | the spinner while loading, the error when its message is non-empty, else the details with their gallery |

## Left out

- HTTP requests, toasts, navigation timers, `window.confirm` and `console` output. Each request's outcome is a parameter, and the model keeps what the handlers do with it.
- The delete handler of both admin tables. It is a confirmation followed by a DELETE request and a refetch; none of its logic is local.
- `formatPrice` and `toLocaleString`. These are locale formatting from the `Intl` library. The card's price text is the price string as stored, or "0".
- `calculateMonthlyStats`. It indexes months by JavaScript `Date` parsing, where an invalid date gives NaN.
- Maps, geolocation, sliders and smooth scrolling, the full-image modal's markup, and `URL.createObjectURL`. Object URLs are parameters.
- Floating-point arithmetic. `parseFloat` yields an exact decimal (mantissa / 10^scale), and the 20% rule compares exactly. Exponent notation and "Infinity" are not recognised.
- Unicode case mapping. `toLowerCase` and `toUpperCase` change ASCII letters only.
- react-hook-form internals. Login and sign-up compute their validity from the browser's e-mail check and the library's rules. The add, edit and management forms take the verdict of the browser and the library as a boolean parameter. Field registration is a map from names to values, and the amenity group is a list of entries. Inputs mounting write into that map (`Payload.Mount`); the other direction, the library setting an input to show a held value, is not modelled, nor are `defaultValues` and `shouldUnregister`, which these forms do not use.
- Path segments named `__proto__`, `constructor` or `prototype`, which the form library refuses to write. A loaded label of that name is not modelled.
- A later amenity label that is an array index, once the group holds other keys, where the form library may have made the group an array. The model keeps it an object.
- Value sanitization of e-mail and number inputs (trimming, dropping line breaks), internationalised domain names, and the browser's `type="number"` check. The e-mail grammar is checked on the value as given.
- EditProperty.LoadFlagsFresh: holds only for labels the path syntax leaves whole. `EditProperty.ApostropheDropped`, `EditProperty.DotCutsLabel` and `EditProperty.EmptyLabelClears` state what happens to the others.
- EditProperty.AmenityRoundTrip: holds only for labels the path syntax leaves whole, for the same reason.
- EditProperty.ResubmitKeepsAmenities: holds only for labels the path syntax leaves whole, for the same reason.
- The JSON value `null` in listing fields. `Listings.Listing` has one "missing" value per field, so a `null` type and an absent type are the same category for `DashboardHome.CategoryCount`.
- Dashboard.TypeStats: the labels come in first-seen order of `String(type)`. `Object.keys` would list integer-like keys first, in ascending numeric order.
- Dashboard.TypeStats: types named after members of `Object.prototype` ("constructor", "toString", "__proto__" and the like) are not modelled. In the source, `typeCounts[type] || 0` finds the inherited member, so such a count becomes a string, and a "__proto__" key is never listed; the promise that the counts sum to the number of listings fails for them.
- Dashboard.CountKeys: keys named after members of `Object.prototype` are not modelled, as for `Dashboard.TypeStats`.
- Dashboard.TypeKey: a type that is neither a string nor missing (a number, say) is not modelled; the key is `String(type)` of a string or of undefined.
- Dashboard.TruthyKinds: the contract states only the bound; which types survive is stated by `Dashboard.TruthyKindsSpec`.
- DashboardHome.Initial: the page starts `categories` at an empty `Set`, which renders as nothing; the model starts it at 0.
- FlatCard.KnownIcon: names that are keys of `Object.prototype` are not modelled. Examples are "constructor" and "tostring". In the source, looking these names up in the icon table finds an inherited member.
- FlatCard.Render: the bedroom, bathroom and size fallbacks of the card are not modelled. These fields are not part of `Listings.Listing`. The details page's owner and detail fallbacks ("Not Available", "N/A") are left out for the same reason.
- SingleFlat.StatusBadge: a status that is not a string is not modelled.
- AdminRoute.Guard: the redirect carries the whole location object as `from`. The model keeps its pathname.
- Similar.FetchSimilar: the `loading` flag and the refetch on prop changes are not modelled. The result is the list after one run of the effect.
- PropertyManagement.WithOwner: the form reads `formData.owner.name` while rendering. After editing a listing without an owner, that read throws before any owner input can fire. The model still defines the update, spreading a missing owner as an empty object.
- PropertyManagement.ManagementPage.ToggleAmenity: the form reads `formData.amenities.includes` while rendering its checkboxes (src/components/dashboard/PropertyManagement.jsx:269). After editing a listing without amenities, that read throws before any checkbox can fire, so the handler requires the list to be present; the crash of the render itself is not modelled.
- The route table, navigation bars, static pages and the dashboard layout, apart from its logout line. Their only logic is presentational.
