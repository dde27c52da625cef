# Mapstash core in Dafny

Mapstash keeps map pins. Each pin has a title, optional notes, coordinates and a set
of free-text tags. This project models the two halves of its core:

- **The server's pin service** (`PinServiceImpl`) over the `Pin` and `Tag`
  entities:
  - create, read, update, delete, and a proximity search;
  - tag resolution: incoming names are lower-cased, trimmed and de-duplicated;
    names already stored are matched ignoring case; only the missing ones are
    created;
  - the conversion of a pin into its transfer object, with tags sorted by name
    ignoring case.
- **The browser client's state machine**: the coordinator component (`App.js`),
  its sidebar, the pin form, the pin card and detail panel with their tag-chip
  colours, and the map panel.

How the code is organised:

- The entities and the service are classes whose methods update their fields in
  place. The repositories are fields of the service: `pinTable` is a sequence in
  `findAll` order, and `tagTable` is a set.
  - Every service method keeps the service invariant `Valid()`. It covers:
    - assigned and distinct ids;
    - the NOT NULL columns of `pins`;
    - tag names stored normalised and unique;
    - every pin's tags stored.
  - Every service method states its result and the new tables.
  - The tag resolution is characterised by the predicate `Resolution` over the
    tag table before and after.
- The client coordinator is a class, `App.Coordinator`, with one field per
  `useState`.
  - It has one method per event handler. An asynchronous handler gets one method
    per segment between two `await`s.
  - Each method ties the new fields to a function of `AppState` over a `State`
    value.
  - The properties of the handlers are proved about those functions: the
    consistency invariant `Inv` over every reachable state, the selection rules,
    the save and delete flows, the error texts, and the refresh key.
- The pin form is a class with one method per handler. The sidebar, pin card,
  detail panel and map helpers are pure functions of their props.
- The tag-chip colour helpers (`stringToHslColor`, `getContrastYIQ`) are modelled
  once, in `TagColor`. `PinCard.js` and `PinDetailView.js` each carry an
  identical copy of them.

Environment inputs are parameters:

- the results of HTTP calls (as the arguments of the methods that settle a
  request);
- the geolocation outcome;
- the Places result;
- the distance function of the proximity search.

## Model

| member | source | states |
|---|---|---|
| Common.OrElse | mapstash-frontend/src/components/Sidebar/PinCard.js:100 | `s \|\| fallback`: the string itself when it is truthy (present and non-empty), the fallback otherwise |
| Common.Wrap32 | mapstash-frontend/src/components/Sidebar/PinCard.js:18-19 | the signed 32-bit reduction stays in the `int` range, is congruent to its input modulo 2^32, and leaves in-range values alone |
| Common.JsRem | mapstash-frontend/src/components/Sidebar/PinCard.js:21 | JavaScript `%` takes the dividend's sign, is smaller in magnitude than the divisor, and differs from the dividend by a multiple of the divisor |
| Common.Trim | mapstash-frontend/src/components/Sidebar/PinForm.js:61-73 | `trim()` yields a slice of the input that neither starts nor ends with a trimmable character, with only trimmable characters cut off before and after it, and is empty exactly when every character is trimmable |
| Common.TrimIdempotent | mapstash-frontend/src/components/Sidebar/PinForm.js:103-111 | trimming a trimmed string changes nothing |
| Common.Lower | mapstash/src/main/java/com/sach/mapstash/service/PinServiceImpl.java:230-238 | `toLowerCase` keeps the length and lowers each ASCII capital, leaving every other character |
| Common.NatToString | mapstash-frontend/src/App.js:340-342 | a number rendered in a template is a non-empty string of decimal digits |
| Common.Join | mapstash-frontend/src/components/Sidebar/PinCard.js:133 | `join` of no parts is empty and of one part is that part |
| Common.JoinAppend | mapstash-frontend/src/components/Sidebar/PinCard.js:133 | joining two non-empty runs of parts is their joins with one separator between, so every pair of neighbouring parts is separated exactly once |
| Common.FilterDedupeCommute | mapstash-frontend/src/components/Sidebar/PinForm.js:84-89 | de-duplicating then filtering by a per-element test equals filtering then de-duplicating |
| Common.DedupeFirstOccurrenceOrder | mapstash-frontend/src/components/Sidebar/PinForm.js:85-87 | `[...new Set(s)]` keeps its survivors in the order of their first occurrence |
| ClientTypes.FindPin | mapstash-frontend/src/App.js:132-133 | `find` by id returns the first pin carrying the id, and returns nothing exactly when no pin carries it |
| Entities.LongHash | mapstash/src/main/java/com/sach/mapstash/model/Pin.java:165-169 | `Long.hashCode` of a `long` is a 32-bit `int` |
| Entities.JavaStringHash | mapstash/src/main/java/com/sach/mapstash/model/Tag.java:106-109 | `String.hashCode` is a 32-bit `int` |
| Entities.Tag.constructor | mapstash/src/main/java/com/sach/mapstash/model/Tag.java:43-52 | a new tag carries its name, no id and no pins |
| Entities.Tag.Equals | mapstash/src/main/java/com/sach/mapstash/model/Tag.java:97-103 | two tags are equal exactly when the other is non-null and the names are equal (null-safe) |
| Entities.Tag.HashCode | mapstash/src/main/java/com/sach/mapstash/model/Tag.java:106-109 | the hash of the name is a 32-bit `int` |
| Entities.Pin.constructor | mapstash/src/main/java/com/sach/mapstash/model/Pin.java:54-55 | the no-argument constructor leaves every field null and the tag set empty |
| Entities.Pin.WithLocation | mapstash/src/main/java/com/sach/mapstash/model/Pin.java:57-62 | the three-argument constructor sets title and coordinates; everything else is null or empty |
| Entities.Pin.Equals | mapstash/src/main/java/com/sach/mapstash/model/Pin.java:155-162 | equality needs a non-null argument and is reflexive; a persisted pin equals every pin with its id; a transient pin (null id) equals no other object, and no pin equals another object with a different id |
| Entities.Pin.HashCode | mapstash/src/main/java/com/sach/mapstash/model/Pin.java:165-169 | the hash is a 32-bit `int`; a transient pin gets the class hash |
| Entities.Pin.AddTag | mapstash/src/main/java/com/sach/mapstash/model/Pin.java:138-143 | after `addTag` both sides contain the other; each set gains the element only when no equal one was present; a null tag changes nothing; `tags` keeps its HashSet invariant |
| Entities.Pin.RemoveTag | mapstash/src/main/java/com/sach/mapstash/model/Pin.java:145-150 | after `removeTag` neither side contains the other; every element equal to the other leaves each set, and nothing else does |
| Entities.PinEqualsSymmetric | mapstash/src/main/java/com/sach/mapstash/model/Pin.java:155-162 | pin equality is symmetric |
| Entities.PinHashConsistent | mapstash/src/main/java/com/sach/mapstash/model/Pin.java:155-169 | equal pins have equal hash codes |
| Entities.TagHashConsistent | mapstash/src/main/java/com/sach/mapstash/model/Tag.java:97-109 | equal tags have equal hash codes, whatever their ids |
| Entities.TransientPinsUnequal | mapstash/src/main/java/com/sach/mapstash/model/Pin.java:155-162 | two distinct pins, one of them transient, are unequal both ways |
| Entities.PersistedCopiesEqual | mapstash/src/main/java/com/sach/mapstash/model/Pin.java:159-162 | two objects carrying the same non-null id are equal both ways and hash alike |
| Entities.PinEqualsTransitive | mapstash/src/main/java/com/sach/mapstash/model/Pin.java:155-162 | pin equality is transitive |
| Entities.PersistChangesHash | mapstash/src/main/java/com/sach/mapstash/model/Pin.java:164-169 | as written, a transient pin's hash (the class hash) changes when it is given id 1 or id 2 (hashes 32 and 33): one of the two always differs |
| Entities.Pin.StableHashCode | mapstash/src/main/java/com/sach/mapstash/model/Pin.java:164-169 | the corrected hash is a 32-bit `int` that agrees with `hashCode` on transient pins |
| Entities.PersistKeepsStableHash | mapstash/src/main/java/com/sach/mapstash/model/Pin.java:164-169 | the corrected hash of a pin is the same before and after it is given an id |
| Entities.StableHashConsistent | mapstash/src/main/java/com/sach/mapstash/model/Pin.java:155-169 | equal pins have equal corrected hashes |
| PinDtos.LexLeTotal | mapstash/src/main/java/com/sach/mapstash/service/PinServiceImpl.java:197-203 | the string order behind `compareToIgnoreCase` is total |
| PinDtos.InsertByName | mapstash/src/main/java/com/sach/mapstash/service/PinServiceImpl.java:197-203 | inserting into a list sorted by name gives a sorted list with the same elements plus the new one |
| PinDtos.SortByName | mapstash/src/main/java/com/sach/mapstash/service/PinServiceImpl.java:197-203 | the sort yields a list ordered by name ignoring case that is a permutation of its input |
| PinDtos.MapPinToPinDto | mapstash/src/main/java/com/sach/mapstash/service/PinServiceImpl.java:181-218 | null maps to null. Otherwise the DTO copies every scalar field and has one entry per tag of the pin, each naming a tag of the pin, sorted by name ignoring case |
| PinService.LowerIsLowerCase | mapstash/src/main/java/com/sach/mapstash/service/PinServiceImpl.java:233 | a lower-cased name has no capital letter left |
| PinService.NormalizeIsNormalized | mapstash/src/main/java/com/sach/mapstash/service/PinServiceImpl.java:233-236 | a non-empty `toLowerCase().trim()` of a name is lower-case, trimmed and non-empty |
| PinService.ProcessedNamesDistinct | mapstash/src/main/java/com/sach/mapstash/service/PinServiceImpl.java:230-238 | no processed tag name occurs twice |
| PinService.ProcessedNamesMembership | mapstash/src/main/java/com/sach/mapstash/service/PinServiceImpl.java:230-238 | the processed names are exactly the non-empty normalised forms of the non-null incoming names |
| PinService.ProcessedNamesNormalized | mapstash/src/main/java/com/sach/mapstash/service/PinServiceImpl.java:230-238 | every processed name is non-empty, lower-case and trimmed |
| PinService.ProcessStep | mapstash/src/main/java/com/sach/mapstash/service/PinServiceImpl.java:231-237 | one turn of the processing loop appends the name's normalised form exactly when it is non-null, non-empty and not yet present |
| PinService.IndexOfId | mapstash/src/main/java/com/sach/mapstash/service/PinServiceImpl.java:91-94 | `findById` gives a position holding the id, or nothing exactly when no stored pin has the id |
| PinService.NearbyPinsCharacterized | mapstash/src/main/java/com/sach/mapstash/service/PinServiceImpl.java:143-169 | the proximity filter distributes over concatenation (so table order is kept) and keeps exactly the pins whose distance from the centre is at most the radius |
| PinService.NewTagNamesUnmatched | mapstash/src/main/java/com/sach/mapstash/service/PinServiceImpl.java:246-274 | the names given to new tags are normalised, pairwise distinct, processed names, and equal no stored name, even ignoring case |
| PinService.ResolvedNamesCover | mapstash/src/main/java/com/sach/mapstash/service/PinServiceImpl.java:246-277 | the matched stored tags and the created tags together carry exactly the processed names |
| PinService.ResolutionOfMatches | mapstash/src/main/java/com/sach/mapstash/service/PinServiceImpl.java:246-277 | matched stored tags plus one new tag per unmatched name satisfy `Resolution` |
| PinService.ValidKept | mapstash/src/main/java/com/sach/mapstash/service/PinServiceImpl.java:31-52 | the service invariant depends only on the service's fields, the stored pins and the tags' ids |
| PinService.ContainsTagAdd | mapstash/src/main/java/com/sach/mapstash/service/PinServiceImpl.java:106-111 | `contains` on a HashSet after adding `t` holds for `u` exactly when it held before or `u` equals `t` |
| PinService.PinServiceImpl.constructor | mapstash/src/main/java/com/sach/mapstash/service/PinServiceImpl.java:22-27 | the service starts with empty, valid tables |
| PinService.PinServiceImpl.ProcessNames | mapstash/src/main/java/com/sach/mapstash/service/PinServiceImpl.java:230-238 | the processing loop computes `ProcessTagNames`, whose properties the lemmas above prove |
| PinService.PinServiceImpl.FindByNameInIgnoreCase | mapstash/src/main/java/com/sach/mapstash/service/PinServiceImpl.java:245-251 | the lookup returns stored tags only, exactly those whose name matches a processed name ignoring case |
| PinService.PinServiceImpl.NewTagsFor | mapstash/src/main/java/com/sach/mapstash/service/PinServiceImpl.java:259-266 | the loop creates exactly one fresh, unsaved, unlinked tag per processed name without a stored match, in order |
| PinService.PinServiceImpl.InsertTag | mapstash/src/main/java/com/sach/mapstash/service/PinServiceImpl.java:268-273 | saving a new tag with a unique normalised name adds it with the next id and keeps the tables valid |
| PinService.PinServiceImpl.SaveAll | mapstash/src/main/java/com/sach/mapstash/service/PinServiceImpl.java:268-274 | `saveAll` adds exactly the new tags to the table and keeps it valid |
| PinService.PinServiceImpl.ResolveTags | mapstash/src/main/java/com/sach/mapstash/service/PinServiceImpl.java:221-277 | `resolveTags` returns a `Resolution`: stored tags are returned exactly when their name is processed; new rows are fresh, returned, carry processed names matching no stored name; the returned names are exactly the processed names; a null or empty list resolves to nothing |
| PinService.PinServiceImpl.ResolveProcessed | mapstash/src/main/java/com/sach/mapstash/service/PinServiceImpl.java:240-277 | the lookup-and-create part of `resolveTags` establishes `Resolution` for distinct normalised names |
| PinService.PinServiceImpl.StoredTagsEqualIdentical | mapstash/src/main/java/com/sach/mapstash/model/Tag.java:13-16 | with unique names, two stored tags are `equals` only when they are the same row |
| PinService.PinServiceImpl.AttachAll | mapstash/src/main/java/com/sach/mapstash/service/PinServiceImpl.java:43-45 | the `addTag` loop over tags of which no two are equal leaves the pin holding exactly those tags |
| PinService.PinServiceImpl.InsertPin | mapstash/src/main/java/com/sach/mapstash/service/PinServiceImpl.java:48 | saving a new pin appends it to the table with the next id and keeps the tables valid |
| PinService.PinServiceImpl.PinFields | mapstash/src/main/java/com/sach/mapstash/service/PinServiceImpl.java:33-37 | the new pin carries the request's title, notes and coordinates, no id, no user and no tags |
| PinService.PinServiceImpl.NewPin | mapstash/src/main/java/com/sach/mapstash/service/PinServiceImpl.java:33-45 | the transient pin carries the request's fields, and its tags are exactly the resolution of the request's names |
| PinService.PinServiceImpl.SaveNewPin | mapstash/src/main/java/com/sach/mapstash/service/PinServiceImpl.java:31-52 | with the NOT NULL fields present, the new pin is appended with the next id, the request's fields and the resolved tags, and the returned DTO describes it |
| PinService.PinServiceImpl.CreatePin | mapstash/src/main/java/com/sach/mapstash/service/PinServiceImpl.java:31-52 | `createPin`: a missing title or coordinate is a constraint violation that changes nothing; otherwise exactly one pin is appended as above and its DTO returned |
| PinService.PinServiceImpl.TagsToRemove | mapstash/src/main/java/com/sach/mapstash/service/PinServiceImpl.java:106-111 | the loop collects exactly the current tags that the resolved set does not contain |
| PinService.PinServiceImpl.DetachAll | mapstash/src/main/java/com/sach/mapstash/service/PinServiceImpl.java:114-116 | the `removeTag` loop removes exactly the tags equal to a removed one and keeps the HashSet invariant |
| PinService.PinServiceImpl.EditFields | mapstash/src/main/java/com/sach/mapstash/service/PinServiceImpl.java:99-100 | title and notes of the found pin are replaced and the tables stay valid |
| PinService.PinServiceImpl.ReplaceTags | mapstash/src/main/java/com/sach/mapstash/service/PinServiceImpl.java:105-121 | removing the stale tags and adding the resolved ones leaves the pin holding exactly the resolved set |
| PinService.PinServiceImpl.ApplyUpdate | mapstash/src/main/java/com/sach/mapstash/service/PinServiceImpl.java:96-125 | the found pin gets the request's title and notes and exactly the resolved tags; the table is unchanged and the DTO describes the pin |
| PinService.PinServiceImpl.UpdatePin | mapstash/src/main/java/com/sach/mapstash/service/PinServiceImpl.java:89-126 | `updatePin`: an unknown id is not found and changes nothing; a null title is a constraint violation that leaves the pin and the tags unchanged; otherwise the id, coordinates and user are kept, title, notes and tags are replaced |
| PinService.PinServiceImpl.DeletePin | mapstash/src/main/java/com/sach/mapstash/service/PinServiceImpl.java:130-139 | `deletePin`: an unknown id is not found and changes nothing; otherwise exactly that pin leaves the table, the rest keep their order, and no pin with the id remains |
| PinService.PinServiceImpl.MapPins | mapstash/src/main/java/com/sach/mapstash/service/PinServiceImpl.java:60-68 | the DTO loop produces one DTO per pin, in order |
| PinService.PinServiceImpl.ValidTagsNamed | mapstash/src/main/java/com/sach/mapstash/service/PinServiceImpl.java:181-218 | in a valid service every tag of every stored pin has a name, so the DTO sort cannot throw |
| PinService.PinServiceImpl.GetAllPins | mapstash/src/main/java/com/sach/mapstash/service/PinServiceImpl.java:56-69 | one DTO per stored pin, in table order, each describing its pin |
| PinService.PinServiceImpl.GetPinById | mapstash/src/main/java/com/sach/mapstash/service/PinServiceImpl.java:73-85 | nothing exactly when no stored pin has the id; otherwise the DTO of a stored pin with that id |
| PinService.PinServiceImpl.FindNearbyPins | mapstash/src/main/java/com/sach/mapstash/service/PinServiceImpl.java:143-169 | the DTOs of exactly the stored pins within the radius, in table order |
| TagColor.HashStep | mapstash-frontend/src/components/Sidebar/PinCard.js:18-19 | one round of the shift-and-subtract hash stays a 32-bit integer |
| TagColor.StringHash | mapstash-frontend/src/components/Sidebar/PinCard.js:16-20 | the hash over all characters is a 32-bit integer |
| TagColor.Hue | mapstash-frontend/src/components/Sidebar/PinCard.js:15-21 | the hue is in [0, 360); it is 0 for a null or empty string, and otherwise the magnitude of Java's string hash of the text modulo 360 |
| TagColor.StringToHslColor | mapstash-frontend/src/components/Sidebar/PinCard.js:14-23 | the loop renders `hsl(h, s%, l%)` with the hue of the string |
| TagColor.StringHashIsJavaHash | mapstash-frontend/src/components/Sidebar/PinCard.js:18-19 | `c + ((h << 5) - h)` in 32-bit arithmetic is Java's `31 * h + c` string hash |
| TagColor.GetContrastYiq | mapstash-frontend/src/components/Sidebar/PinCard.js:25-36 | the text colour is always one of the two colours |
| TagColor.DigitsOfNat | mapstash-frontend/src/components/Sidebar/PinCard.js:30 | `parseInt` of a rendered number gives the number back |
| TagColor.CapturedGroupIsDigits | mapstash-frontend/src/components/Sidebar/PinCard.js:28-30 | whatever the pattern captures as its second group is a non-empty digit string |
| TagColor.HslLayout | mapstash-frontend/src/components/Sidebar/PinCard.js:22 | the rendered colour has the literal layout of the template, with the three numbers at known positions |
| TagColor.MatchOfLayout | mapstash-frontend/src/components/Sidebar/PinCard.js:28 | the pattern matches any `hsl(H, S%, L%)` with digit strings at its start and captures L |
| TagColor.MatchOfHsl | mapstash-frontend/src/components/Sidebar/PinCard.js:22-28 | the pattern matches every colour that `stringToHslColor` renders and captures its lightness |
| TagColor.ContrastOfGenerated | mapstash-frontend/src/components/Sidebar/PinCard.js:14-36 | for a generated colour the text is dark exactly when the lightness is at least 60 |
| TagColor.ChipTextIsDark | mapstash-frontend/src/components/Sidebar/PinCard.js:106-130 | every chip is labelled by its name or `'untagged'` and, drawn at lightness 75, has dark text |
| PinCard.FirstLine | mapstash-frontend/src/components/Sidebar/PinCard.js:158-160 | the notes preview is the prefix before the first line feed, and contains none |
| PinCard.CardIntent | mapstash-frontend/src/components/Sidebar/PinCard.js:61-81 | the body and delete report the pin's id, edit hands over the whole pin, and the card never closes a panel |
| PinCard.CardTagsAccounted | mapstash-frontend/src/components/Sidebar/PinCard.js:83-84 | every tag is shown exactly once: the first three as chips in order, the rest counted in the "+N" chip, whose tooltip joins their names |
| PinCard.OneHiddenTag | mapstash-frontend/src/components/Sidebar/PinCard.js:132-135 | with four tags, the "+1" tooltip is the fourth tag's name |
| PinCard.CardFallbacks | mapstash-frontend/src/components/Sidebar/PinCard.js:100 | the title falls back to 'Untitled Pin'; the notes preview appears only for truthy notes |
| PinDetailView.DetailIntent | mapstash-frontend/src/components/Sidebar/PinDetailView.js:71-81 | edit hands over the whole pin, delete its id, and the panel never selects |
| PinDetailView.DetailShowsEveryTag | mapstash-frontend/src/components/Sidebar/PinDetailView.js:54-66 | the placeholder appears exactly when no pin is selected; otherwise there is one chip per tag, in order, with the title and notes fallbacks |
| PinDetailView.CardAgreesWithDetail | mapstash-frontend/src/components/Sidebar/PinDetailView.js:140-160 | the card's chips are the first chips of the detail panel, so the two views colour a tag alike |
| PinForm.CleanTagsIsDedupeOfKept | mapstash-frontend/src/components/Sidebar/PinForm.js:84-89 | the cleaned tag list is the de-duplication of the non-empty trimmed strings and has no duplicates |
| PinForm.CleanTagsMembership | mapstash-frontend/src/components/Sidebar/PinForm.js:84-89 | an entry survives cleaning exactly when it is a trimmed input entry that is a non-empty string |
| PinForm.CleanTagsTrimmed | mapstash-frontend/src/components/Sidebar/PinForm.js:84-89 | the survivors are non-empty, already-trimmed strings; every tag object is dropped |
| PinForm.CleanTagsTexts | mapstash-frontend/src/components/Sidebar/PinForm.js:84-89 | a string survives exactly when it is non-empty and is the trimmed form of some string entry |
| PinForm.CleanTagsOrder | mapstash-frontend/src/components/Sidebar/PinForm.js:84-89 | survivors keep the order of their first occurrence |
| PinForm.FilterFirstIndex | mapstash-frontend/src/components/Sidebar/PinForm.js:87 | `filter` keeps the relative order of first occurrences |
| PinForm.PayloadTrimmed | mapstash-frontend/src/components/Sidebar/PinForm.js:103-111 | a payload from a valid title has a non-empty trimmed title, trimmed notes and the tags as selected. It carries the id in edit mode and only the coordinates otherwise |
| PinForm.Form.constructor | mapstash-frontend/src/components/Sidebar/PinForm.js:33-58 | on mount, the fields come from the pin only in edit mode, are empty otherwise, and no error is shown |
| PinForm.Form.Populate | mapstash-frontend/src/components/Sidebar/PinForm.js:40-58 | when the props change, the fields come from the pin only in edit mode (tags as objects) and are empty otherwise; the errors are cleared |
| PinForm.Form.ValidateForm | mapstash-frontend/src/components/Sidebar/PinForm.js:61-73 | the form is valid exactly when the title is not blank; the title error is set or cleared to match |
| PinForm.Form.HandleTitleChange | mapstash-frontend/src/components/Sidebar/PinForm.js:76-82 | the title is kept as typed; a shown error is cleared only by a non-blank title |
| PinForm.Form.HandleNotesChange | mapstash-frontend/src/components/Sidebar/PinForm.js:83 | the notes are kept as typed |
| PinForm.Form.HandleTagsChange | mapstash-frontend/src/components/Sidebar/PinForm.js:84-89 | the selection becomes the cleaned list, whose properties the lemmas above prove |
| PinForm.Form.HandleSubmit | mapstash-frontend/src/components/Sidebar/PinForm.js:93-117 | a payload is handed over exactly when the title is not blank, and it is the payload of the current fields |
| PinForm.EnabledSubmitSaves | mapstash-frontend/src/components/Sidebar/PinForm.js:93-216 | whenever the submit button is enabled, no save is running and a submit passes validation; the payload's title is the trimmed field, non-empty and not trimmable further |
| PinSidebar.FilterDegenerateCases | mapstash-frontend/src/components/Sidebar/PinSidebar.js:51-70 | outside list mode nothing is listed; a blank search term lists every pin as given |
| PinSidebar.FilterSelectsMatches | mapstash-frontend/src/components/Sidebar/PinSidebar.js:51-70 | with a non-blank term the filter keeps exactly the matching pins, in order |
| PinSidebar.MissingFieldsNeverMatch | mapstash-frontend/src/components/Sidebar/PinSidebar.js:63-68 | a pin with no title, notes or tags matches no term |
| PinSidebar.FilterIgnoresTermCase | mapstash-frontend/src/components/Sidebar/PinSidebar.js:58 | the filter gives the same list whatever the case of the search term |
| PinSidebar.DispatchByMode | mapstash-frontend/src/components/Sidebar/PinSidebar.js:97-186 | add and edit show the form (edit with the selected pin, add with no initial data and the pending coordinates), view shows the detail panel, list shows the list; the toolbar appears in list mode only |
| PinSidebar.FormKeySeparatesPins | mapstash-frontend/src/components/Sidebar/PinSidebar.js:121 | two edit targets with different truthy ids, or an edit and an add, get different form keys, so the form remounts |
| PinSidebar.EmptyMessageDistinguishes | mapstash-frontend/src/components/Sidebar/PinSidebar.js:157-160 | an empty collection shows the no-pins message; the no-match message needs pins, a non-blank term and no matching pin |
| PinSidebar.CardsHighlightActive | mapstash-frontend/src/components/Sidebar/PinSidebar.js:148-177 | the cards are the filtered pins in order, and a card is highlighted exactly when its id equals the active id |
| MapContainer.AnyAllowedExists | mapstash-frontend/src/components/MapContainer/MapContainer.js:158 | `some` over the place types holds exactly when some type is one of the marker types |
| MapContainer.ShouldShowMarkerIff | mapstash-frontend/src/components/MapContainer/MapContainer.js:150-158 | a place gets a marker exactly when one of its types is a marker type; a missing list or `locality, political` get none |
| MapContainer.SearchResultOf | mapstash-frontend/src/components/MapContainer/MapContainer.js:136-166 | a place without a location reports nothing. Otherwise the place is reported, and its location is reported exactly when it deserves a marker |
| MapContainer.MapClickCoords | mapstash-frontend/src/components/MapContainer/MapContainer.js:116-123 | a click reports coordinates exactly when it carries a position, and they are that position |
| MapContainer.ActiveMarkerRule | mapstash-frontend/src/components/MapContainer/MapContainer.js:245-261 | one marker per pin, in order, each reporting its pin's id; a marker is active exactly when its id is the active id, an active marker lies above every inactive one, only an active marker bounces, and with distinct ids at most one marker is active |
| MapContainer.PanRule | mapstash-frontend/src/components/MapContainer/MapContainer.js:67-83 | before loading nothing moves; a viewport wins over a location; a pan to a location centres there and ends at zoom 13 or more, zooming to 15 only from below 13; panning again to the same target changes nothing |
| MapContainer.GoogleMap.constructor | mapstash-frontend/src/components/MapContainer/MapContainer.js:19-20 | the map starts at the default centre and zoom |
| MapContainer.GoogleMap.FitBounds | mapstash-frontend/src/components/MapContainer/MapContainer.js:71 | fitting records the viewport and nothing else |
| MapContainer.GoogleMap.PanTo | mapstash-frontend/src/components/MapContainer/MapContainer.js:74 | panning centres on the location and keeps the zoom |
| MapContainer.GoogleMap.SetZoom | mapstash-frontend/src/components/MapContainer/MapContainer.js:77 | only the zoom changes |
| MapContainer.MapPanel.constructor | mapstash-frontend/src/components/MapContainer/MapContainer.js:42-48 | the panel starts with the script not loaded and no map instance |
| MapContainer.MapPanel.ScriptLoaded | mapstash-frontend/src/components/MapContainer/MapContainer.js:42-46 | the loader marks the script loaded and keeps the map reference |
| MapContainer.MapPanel.OnLoad | mapstash-frontend/src/components/MapContainer/MapContainer.js:105-108 | the instance is stored in the ref |
| MapContainer.MapPanel.OnUnmount | mapstash-frontend/src/components/MapContainer/MapContainer.js:110-113 | the ref is cleared |
| MapContainer.MapPanel.PanToLocation | mapstash-frontend/src/components/MapContainer/MapContainer.js:67-83 | the camera ends as `PanRule` describes; without an instance nothing happens |
| MapContainer.MapPanel.HandlePlaceSelect | mapstash-frontend/src/components/MapContainer/MapContainer.js:136-166 | reports `SearchResultOf(place)` and, for a place with a location, pans to its location or viewport |
| MapContainer.MapPanel.FollowUserLocation | mapstash-frontend/src/components/MapContainer/MapContainer.js:86-90 | a known user location, once loaded, is panned to; otherwise the camera stays |
| MapContainer.MapPanel.FollowActivePin | mapstash-frontend/src/components/MapContainer/MapContainer.js:93-101 | a truthy active id found among the pins, once loaded, pans to that pin's coordinates; otherwise the camera stays |
| AppState.InitRule | mapstash-frontend/src/App.js:54-73 | the first render satisfies `Inv`, is in list mode, is loading, wants a load, shows no pins and no notification |
| AppState.SelectKeepsInv | mapstash-frontend/src/App.js:118-151 | selecting keeps the consistency invariant (a selection only in view or edit mode and matching the active id; the temporary marker only in add mode at the pending coordinates; the search marker only in list mode) |
| AppState.SaveCalledKeepsInv | mapstash-frontend/src/App.js:202-235 | starting a save keeps the invariant |
| AppState.SaveSettledKeepsInv | mapstash-frontend/src/App.js:236-266 | either settlement of a save keeps the invariant |
| AppState.DeleteStartKeepsInv | mapstash-frontend/src/App.js:270-311 | requesting, confirming or cancelling a delete keeps the invariant |
| AppState.DeleteSettledKeepsInv | mapstash-frontend/src/App.js:284-303 | either settlement of a delete keeps the invariant |
| AppState.NearbyStartKeepsInv | mapstash-frontend/src/App.js:314-387 | starting a nearby search, obtaining a position, and showing all keep the invariant |
| AppState.NearbyFetchedKeepsInv | mapstash-frontend/src/App.js:338-342 | a resolved nearby fetch keeps the invariant |
| AppState.NearbyFailedKeepsInv | mapstash-frontend/src/App.js:343-367 | a failed fetch or positioning keeps the invariant |
| AppState.NavigationKeepsInv | mapstash-frontend/src/App.js:155-199 | preparing an add, cancelling, editing and a search result keep the invariant |
| AppState.NavStepKeepsInv | mapstash-frontend/src/App.js:118-199 | every navigation event keeps the invariant |
| AppState.SaveStepKeepsInv | mapstash-frontend/src/App.js:202-267 | every save event keeps the invariant |
| AppState.DeleteStepKeepsInv | mapstash-frontend/src/App.js:270-311 | every delete event keeps the invariant |
| AppState.NearbyStepKeepsInv | mapstash-frontend/src/App.js:314-387 | every nearby event keeps the invariant |
| AppState.LoadStepKeepsInv | mapstash-frontend/src/App.js:84-115 | every load event keeps the invariant |
| AppState.StepKeepsInv | mapstash-frontend/src/App.js:78-403 | every event keeps the invariant |
| AppState.RunKeepsInv | mapstash-frontend/src/App.js:78-403 | any sequence of events keeps the invariant |
| AppState.ReachableKeepsInv | mapstash-frontend/src/App.js:54-403 | every state reachable from the first render satisfies the invariant |
| AppState.SelectItemRule | mapstash-frontend/src/App.js:118-151 | a falsy id clears only the selection; an id not on the map changes nothing; an id on the map selects the first pin with it, in view mode, clearing markers and pending coordinates |
| AppState.PrepareAddRule | mapstash-frontend/src/App.js:155-171 | add mode always clears the selection and the search marker, and sets the pending coordinates and temporary marker to the clicked point (or clears both) |
| AppState.EditRequestRule | mapstash-frontend/src/App.js:185-199 | editing needs a pin with a truthy id, and then selects that pin in edit mode, whatever the mode |
| AppState.PlanSaveRule | mapstash-frontend/src/App.js:202-235 | a save sends a create only in add mode with pending coordinates, using them, and an update only in edit mode with a truthy id; anything else is rejected with its reason |
| AppState.RejectedSaveRule | mapstash-frontend/src/App.js:233-246 | a rejected save changes only the notification, which shows the reason as an error |
| AppState.SaveSucceededRule | mapstash-frontend/src/App.js:247-266 | a successful save leaves nearby mode and asks for a reload. An update that returned a pin shows that pin in view mode; anything else returns to the list |
| AppState.SaveFailedRule | mapstash-frontend/src/App.js:240-266 | a failed save keeps the form, the selection and the pending coordinates, and shows the error |
| AppState.ErrorTextRule | mapstash-frontend/src/App.js:242-298 | a server message in the response leads both the save and the delete text; without one the save text starts with the error's own message or "Failed to save pin.", the delete text with "Failed to delete pin."; a request with no response gives exactly "No response from server." for both; otherwise the error's message, with "Failed to save pin." as the save fallback; the save text is never empty, and the delete text is empty exactly when there is no response, no request and no message |
| AppState.StatusSuffixShown | mapstash-frontend/src/App.js:244-296 | every save or delete text built from a response ends with the status suffix |
| AppState.DeleteRule | mapstash-frontend/src/App.js:270-311 | a falsy id opens nothing. Confirming without an id changes nothing. A success always drops the selection, returns to the list and reloads. A failure only reports. Closing while loading is ignored |
| AppState.NearbyRule | mapstash-frontend/src/App.js:314-370 | without geolocation only a warning. Otherwise the list is shown and loading starts. A failed fetch leaves nearby mode. A null fetch result counts as a failure. A position error clears the location and shows its text |
| AppState.PositionAndNearbyTexts | mapstash-frontend/src/App.js:340-363 | the three position errors read differently, any other code gets the generic text, and the nearby count is rendered in the success text |
| AppState.NearbyModeOnlyFromFetch | mapstash-frontend/src/App.js:338-342 | only a nearby fetch that resolved with data turns nearby mode on, and then the map shows exactly those pins |
| AppState.SaveStepRefresh | mapstash-frontend/src/App.js:247-266 | the refresh key grows by one on a successful save only |
| AppState.DeleteStepRefresh | mapstash-frontend/src/App.js:300-303 | the refresh key grows by one on a successful delete only |
| AppState.NearbyStepRefresh | mapstash-frontend/src/App.js:373-387 | the refresh key grows by one on "show all" only |
| AppState.RefreshKeyRule | mapstash-frontend/src/App.js:68 | the refresh key never decreases, and changes only on a successful save or delete or on "show all" |
| AppState.CancelAndShowAllRepeat | mapstash-frontend/src/App.js:174-182 | cancelling twice is cancelling once; showing all twice differs from once only in the refresh key |
| AppState.SearchResultRule | mapstash-frontend/src/App.js:390-403 | a result without coordinates only clears the search marker; with coordinates it returns to the list showing only the search marker |
| AppState.ChildrenRule | mapstash-frontend/src/App.js:406-485 | the floating button shows "show all" exactly in nearby mode. The sidebar always lists all pins. The map shows the nearby pins in nearby mode. The list spinner never shows during a save |
| AppState.IntentRule | mapstash-frontend/src/App.js:452-456 | the card and panel buttons reach the handlers: edit selects the pin in edit mode, delete opens the dialog for its id, close cancels |
| AppState.PendingCoordsOutsideAdd | mapstash-frontend/src/App.js:320-328 | pending add coordinates survive a nearby search, so they can exist outside add mode |
| AppState.FalsySelectKeepsView | mapstash-frontend/src/App.js:119-126 | a falsy selection in view mode clears the selection but stays in view mode |
| AppState.SidebarCardMissInNearbyMode | mapstash-frontend/src/App.js:132-149 | in nearby mode, clicking a listed pin that is not nearby changes nothing |
| AppState.AddFlowUsesClickedCoords | mapstash-frontend/src/App.js:211-221 | the add flow sends the coordinates of the map click, whatever the form holds |
| AppState.AddButtonNeedsMapClick | mapstash-frontend/src/App.js:456 | a save from the "add" button, which opens the form without coordinates, is always rejected for missing coordinates |
| App.Coordinator.constructor | mapstash-frontend/src/App.js:54-73 | the state hooks start as `AppState.Init`, which satisfies `Inv` |
| App.Coordinator.HandleCloseNotification | mapstash-frontend/src/App.js:78-81 | a clickaway is ignored; otherwise the notification closes and keeps its text |
| App.Coordinator.RunDataEffect | mapstash-frontend/src/App.js:110-115 | the effect starts a load exactly outside nearby mode |
| App.Coordinator.LoadSucceeded | mapstash-frontend/src/App.js:89-105 | the fields become `AppState.LoadSucceeded` of the old ones: pins and tags stored (empty when missing), loading off |
| App.Coordinator.LoadFailed | mapstash-frontend/src/App.js:97-105 | the fields become `AppState.LoadFailed`: error shown, lists emptied, loading off |
| App.Coordinator.HandleSelectItem | mapstash-frontend/src/App.js:118-151 | the fields become `AppState.SelectItem`, characterised by `SelectItemRule` |
| App.Coordinator.HandlePrepareAddPin | mapstash-frontend/src/App.js:155-171 | the fields become `AppState.PrepareAddPin`, characterised by `PrepareAddRule` |
| App.Coordinator.HandleCancelSidebarAction | mapstash-frontend/src/App.js:174-182 | the fields become `AppState.CancelSidebarAction`, characterised by `CancelAndShowAllRepeat` and `IntentRule` |
| App.Coordinator.HandleEditRequest | mapstash-frontend/src/App.js:185-199 | the fields become `AppState.EditRequest`, characterised by `EditRequestRule` |
| App.Coordinator.HandleSavePin | mapstash-frontend/src/App.js:202-235 | the request sent is exactly the one `PlanSave` plans; a rejection settles at once (`RejectedSaveRule`) |
| App.Coordinator.SaveSucceeded | mapstash-frontend/src/App.js:236-266 | the fields become `AppState.SaveSucceeded`, characterised by `SaveSucceededRule` |
| App.Coordinator.SaveFailed | mapstash-frontend/src/App.js:240-266 | the fields become `AppState.SaveFailed`, characterised by `SaveFailedRule` and `ErrorTextRule` |
| App.Coordinator.HandleDeleteRequest | mapstash-frontend/src/App.js:270-275 | the fields become `AppState.DeleteRequest`, characterised by `DeleteRule` |
| App.Coordinator.ConfirmDeletePin | mapstash-frontend/src/App.js:278-290 | returns the id to delete exactly when it is truthy, and the fields become `AppState.DeleteConfirmed` |
| App.Coordinator.DeleteSucceeded | mapstash-frontend/src/App.js:284-303 | the fields become `AppState.DeleteSucceeded`, characterised by `DeleteRule` |
| App.Coordinator.DeleteFailed | mapstash-frontend/src/App.js:291-303 | the fields become `AppState.DeleteFailed`, characterised by `DeleteRule` and `ErrorTextRule` |
| App.Coordinator.HandleCloseDeleteDialog | mapstash-frontend/src/App.js:307-311 | the fields become `AppState.CloseDeleteDialog`; closing while loading is ignored |
| App.Coordinator.HandleFindNearby | mapstash-frontend/src/App.js:314-330 | the fields become `AppState.FindNearby`: without geolocation only a warning, otherwise the list is shown and loading starts (`NearbyRule`) |
| App.Coordinator.PositionObtained | mapstash-frontend/src/App.js:331-339 | returns the nearby request (the position and the fixed radius) and the fields become `AppState.PositionObtained`, which stores the location |
| App.Coordinator.NearbyFetchFailed | mapstash-frontend/src/App.js:343-349 | the fields become `AppState.NearbyFetchFailed`, characterised by `NearbyRule` |
| App.Coordinator.NearbyFetched | mapstash-frontend/src/App.js:340-342 | the fields become `AppState.NearbyFetched`, the only way into nearby mode (`NearbyModeOnlyFromFetch`) |
| App.Coordinator.PositionFailed | mapstash-frontend/src/App.js:354-367 | the fields become `AppState.PositionFailed`, characterised by `NearbyRule` and `PositionAndNearbyTexts` |
| App.Coordinator.HandleShowAll | mapstash-frontend/src/App.js:373-387 | the fields become `AppState.ShowAll`, characterised by `CancelAndShowAllRepeat` and `NearbyStepRefresh` |
| App.Coordinator.HandleSearchResult | mapstash-frontend/src/App.js:390-403 | the fields become `AppState.SearchResult`, characterised by `SearchResultRule` |

## Left out

- The REST controllers, the repositories' SQL and the HTTP client module (`api.js`) are not part of this model. Each HTTP call is a request value that a coordinator method returns, plus the method that settles it.
- JPA mechanics (generated timestamps, cascades, lazy loading, transactions) are not modelled. A NOT NULL column left null becomes a `ConstraintViolation` error that changes nothing, which is what the rollback leaves.
- The two timestamps of `PinDto` are left out.
- The haversine distance of `findNearbyPins` is a function parameter (floating point is out of scope). The service is proved to keep exactly the pins the given distance places within the radius.
- Coordinates are `real` values. The client's `toFixed` rendering of coordinates is left out.
- The Places autocomplete widget, the `FindNearbyButton` component's rendering, the MUI layout, icons and the overlay markers (temporary, user, search, with their icons and zIndex) are left out. The model keeps the marker positions the coordinator holds.
- Common.Lower: lowers only ASCII capitals, unlike `toLowerCase` in Java and JavaScript, which cover all of Unicode.
- TagColor.StringHash: strings are sequences of characters, not UTF-16 code units, so `charCodeAt` over characters outside the Basic Multilingual Plane is not modelled.
- Entities.JavaStringHash: the same holds for Java's `String.hashCode`, which also runs over UTF-16 code units; characters outside the Basic Multilingual Plane are not modelled.
- AppState.DeleteErrorText: a delete error with no response, no request and no message shows `undefined` in the browser; the model shows the empty string.
- MapContainer.ActivePinLocation: a pin without coordinates is not panned to, where the browser would be handed null coordinates; the NOT NULL latitude and longitude columns keep such a pin out of the data.
- PinDtos.SortByName: states an ordered permutation; the stability of Java's sort is not stated. The stored names are unique and lower-case, so no two entries compare equal.
- JavaScript `null` and `undefined` are both `None`. The optional callbacks (`onSearchResult`, `onMapClick`, `onMarkerClick`) are taken to be present, as `App.js` always passes them.
- `initialCoords` is passed to the pin form but the form never reads it; the model keeps it only in the sidebar's view.
- `GoogleMap.fitBounds` records the viewport it was fitted to rather than computing a camera.
- `handleCloseNotification` rebuilds the notification from a possibly stale closure. The model reads the current value; React batching makes them agree within one event.
- Asynchronous handlers may interleave: each settlement is a method with no precondition on the current state, so races are allowed, but cancellation is not modelled.
- Setter calls inside one handler are applied in order. React batches them, and since each setter writes a distinct field, the order does not matter.
- `Tag.setName` and the other entity setters that the core never calls are left out; `Tag.name` is fixed at construction.
- Logging (`console.*`) is left out.

## Findings

| source | as written | input that shows it | evidently intended | confidence | as-written member | corrected member |
|---|---|---|---|---|---|---|
| mapstash/src/main/java/com/sach/mapstash/model/Pin.java:164-169 | a transient pin hashes to the class hash and a persisted one to `Objects.hash(id)`, so the hash changes when the pin is saved and a pin placed in a hash set before saving is no longer found there afterwards | a transient pin saved and given id 1 (hash 32) or id 2 (hash 33): the class hash cannot equal both | the comment says the hash must not change when the entity gets its id; a hash that depends only on the class keeps that promise and stays consistent with `equals` | high, not executed | Entities.PersistChangesHash | Entities.Pin.StableHashCode |
