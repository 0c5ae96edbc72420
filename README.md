# Podoflex site and admin panel: a Dafny model

Podoflex is the website of a foot-care practice. It has a bilingual (English/French)
landing page and an admin panel. This project models their behaviour:

- **Brand settings.** The settings are persisted in browser storage under
  `podoflex-brand-settings` and edited through a draft in the admin panel.
  - The draft's dotted-path writer is modelled, including the fact that it aliases the
    store's objects.
  - So are the services editor and the working-hours editor.
- **Landing content.** This is the content map built from the `landing_content` rows.
  The content manager keeps drafts of the four sections and saves them section by
  section.
- **Language provider.** It covers the translation tables, the lookup `t` that falls back
  to the key, and the language persisted under `podoflex-language`.
- **Landing components.** These are the contact section (social links, the contact form's
  `mailto:` link, the working-hours block), the hero (name lines, tagline, the two
  call-to-action links) and the scroll-reveal hook with its class string.
- **Account pages.** These are the profile settings (form, password change, avatar
  upload), user management (create, edit, role badges), forgot password and the
  first-admin setup.
  - The two auth-hook operations that hold logic of their own, `updateProfile` and
    `uploadAvatar`, are modelled as well.

## How the model is built

- **Values and documents.** JSON documents are the datatype `JsonDoc.Json` (strings,
  objects, arrays). JavaScript's member reads, optional chaining and walk-then-assign
  are functions over it.
- **Objects with identity.** Where object identity matters, objects live in an explicit
  heap, the class `JsRuntime.Heap`. The admin draft, the store's settings and the seed
  object are locations in it, and `JsHeap.Snapshot` gives the document a location
  describes. The heap-level writers are proved to do to that document what the
  document-level `JsonDoc.Assign` does. Two facts about aliasing are proved.
  - Any tree that reaches the written object by some path sees the same write, made
    through that path followed by the written keys (`JsRuntime.ReachedWrite`).
  - A tree that does not reach the written cell keeps its document
    (`JsRuntime.HeapAssignUnreached`).
- **React state.** A component's state cells become a `class`. A handler becomes a method
  that runs the state update and then the effects the update triggers.
  - A flag that is on only while a request is awaited is recorded in a ghost field
    (`savingDuringUpdate`, `loadingDuringCall`). The field is assigned at the moment of
    the call.
- **The environment.** Backend answers, the clock (`Date.now()`), storage contents and
  the chosen file are parameters. `encodeURIComponent` is not re-implemented: a link is
  a sequence of `Urls.Piece`s, and the text handed to the encoder is kept raw.
- **The model follows the code's actual behaviour, including where it may be unexpected:**
  - A stored settings blob that does not parse makes the provider's initialiser throw.
    It does not fall back to the seed.
  - The admin draft is the store's settings object. The writer copies only the top level,
    so editing a nested member also changes the live settings and, after a reset, the
    seed object.
  - A stored language other than `en`/`fr` is accepted at start-up. Every call of `t`
    then throws.
  - The declared settings type has no `tiktok` or `workingHours`, but the components read
    both. The model includes them as optional members.
  - The hero's WhatsApp link uses the number as stored. The contact section's link keeps
    only its digits.
  - A setup request that returns nothing makes the setup form's handler throw after it
    has cleared the loading flag.

## Model

| member | source | states |
|---|---|---|
| Text.Split | src/pages/AdminPanel.tsx:20 | splitting a path on dots gives at least one piece, and no piece contains a dot |
| Text.SplitJoin | src/pages/admin/WorkingHours.tsx:36 | joining dot-free pieces and splitting again gives back the same pieces |
| Text.JoinSplit | src/components/DynamicHero.tsx:52-54 | joining the pieces of a split rebuilds the original string |
| Text.NatToStringInjective | src/pages/admin/ServicesManager.tsx:36 | two numbers have the same decimal text exactly when they are equal |
| Text.ParseNatToString | src/pages/admin/ServicesManager.tsx:18-32 | an index's decimal text names that element when used as an array key |
| Lists.RemoveAt | src/pages/admin/ServicesManager.tsx:60 | filtering out one index drops exactly that element and keeps the others in order; an index out of range keeps the list |
| JsonDoc.SetMember | src/pages/AdminPanel.tsx:27 | the final assignment succeeds exactly on an object or an existing array element, and the member then reads the value |
| JsonDoc.Read | src/pages/admin/WorkingHours.tsx:35 | an optional-chaining read of undefined is undefined, and reading a path reads the last key's member of what the path without it reads |
| JsonDoc.Assign | src/pages/AdminPanel.tsx:19-30 | a thrown write names one of the path's keys; a successful one starts from an object or array, keeps its kind, adds only the first key to an object's members and keeps an array's length |
| JsonDoc.AssignReadBack | src/pages/AdminPanel.tsx:19-30 | after a successful dotted-path write, reading the same path gives the written string |
| JsonDoc.AssignKeepsOtherPaths | src/pages/AdminPanel.tsx:19-30 | a dotted-path write leaves every path that is neither a prefix nor an extension of it unchanged |
| JsonDoc.AssignSucceedsIff | src/pages/AdminPanel.tsx:24-27 | the write succeeds exactly when every key but the last reads an object or array on which the last key can be set; a missing segment throws |
| JsHeap.HeapAssignDoc | src/pages/AdminPanel.tsx:24-27 | the in-place walk and assign on heap objects changes the document as the document-level assignment does, and fails with the same error |
| JsRuntime.SharedMemberWrite | src/pages/AdminPanel.tsx:21-27 | when another tree holds the same object under the first key, a write of two or more keys changes that tree's document exactly as if the write had been made on it |
| JsRuntime.ReachedWrite | src/pages/AdminPanel.tsx:21-27 | a write made at an object that another tree reaches by a path changes that tree's document exactly as the write through that path followed by the written keys |
| JsRuntime.Heap.Build | src/contexts/BrandSettingsContext.tsx:52 | parsing builds a new tree of objects whose document is the parsed one, and leaves every existing object as it was |
| JsRuntime.Heap.AssignPath | src/pages/AdminPanel.tsx:24-27 | the loop walks and assigns in place exactly as the heap-level assignment function does; on a throw no cell changes |
| BrandSchema.DecodeEncode | src/contexts/BrandSettingsContext.tsx:4-35 | every settings value survives a trip through its JSON form unchanged |
| BrandSchema.DecodeEncodeServices | src/contexts/BrandSettingsContext.tsx:28-33 | a list of services survives a trip through its JSON form unchanged |
| BrandSchema.DecodeEncodeHours | src/pages/admin/WorkingHours.tsx:35-44 | a working-hours table (locale to day to text) survives a trip through its JSON form unchanged |
| BrandSettingsContext.InitialDoc | src/contexts/BrandSettingsContext.tsx:50-53 | the initial settings are the parsed blob when storage holds non-empty text, else the seed; initialisation fails exactly when the blob does not parse |
| BrandSettingsContext.PersistRoundTrip | src/contexts/BrandSettingsContext.tsx:50-57 | a persisted document is what the next initialisation yields, whatever the seed |
| BrandSettingsContext.Mount | src/contexts/BrandSettingsContext.tsx:50-57 | mounting fails exactly when initialisation throws; otherwise the settings describe the initial document, storage holds that document, and without a stored blob the settings are the seed object itself |
| BrandSettingsContext.BrandSettingsStore.Mounted | src/contexts/BrandSettingsContext.tsx:50-57 | after mounting, storage holds the current settings |
| BrandSettingsContext.BrandSettingsStore.SetSettings | src/contexts/BrandSettingsContext.tsx:55-57 | the settings become the given object; storage is rewritten only when the object changed |
| BrandSettingsContext.BrandSettingsStore.UpdateSettings | src/contexts/BrandSettingsContext.tsx:59-61 | the settings become exactly the given object, with no merge; after a change, a reload yields the new document |
| BrandSettingsContext.BrandSettingsStore.ResetSettings | src/contexts/BrandSettingsContext.tsx:63-66 | the settings become the seed object. Storage is emptied if the settings already were the seed, otherwise it holds the seed. While the seed is intact, a reload yields the bundled file |
| AdminPanel.AdminPanel.constructor | src/pages/AdminPanel.tsx:17 | the draft starts as the store's settings object |
| AdminPanel.AdminPanel.HandleInputChange | src/pages/AdminPanel.tsx:19-30 | the new draft is the dotted-path assignment of the old one, or the error it throws with the draft kept. A single key leaves the store unchanged. A longer path through a member shared with the settings changes the settings identically |
| AdminPanel.AdminPanel.HandleSave | src/pages/AdminPanel.tsx:37-39 | the store's settings become the draft object, and storage holds its document when it changed |
| AdminPanel.AdminPanel.HandleReset | src/pages/AdminPanel.tsx:45-47 | the store is reset to the seed. The draft is first the captured pre-reset settings, then the seed through the re-sync |
| AdminPanel.InputChangeCopy | src/pages/AdminPanel.tsx:21 | the spread copy describes the same document and leaves the settings and the seed as they were |
| AdminPanel.InputChangeSingleKey | src/pages/AdminPanel.tsx:19-30 | a one-key path changes no existing object |
| AdminPanel.InputChangeShared | src/pages/AdminPanel.tsx:21-27 | a longer path writes into a nested object shared with another tree, which then changes as the draft does |
| ServicesManager.NewServiceIds | src/pages/admin/ServicesManager.tsx:34-46 | two new services get the same id exactly when they are created at the same millisecond |
| ServicesManager.AddServiceDoc | src/pages/admin/ServicesManager.tsx:34-57 | adding appends the new service to the services list and leaves every other member of the draft alone |
| ServicesManager.DeleteServiceDoc | src/pages/admin/ServicesManager.tsx:59-70 | deleting removes the service at the index, in order, and leaves every other member alone |
| ServicesManager.AddThenDelete | src/pages/admin/ServicesManager.tsx:34-70 | deleting the service just added restores the draft exactly |
| ServicesManager.DeleteKeepsOne | src/pages/admin/ServicesManager.tsx:93 | a deletion made through the control, which is shown only while more than one service exists, never empties the list |
| ServicesManager.AddServiceTyped | src/pages/admin/ServicesManager.tsx:34-57 | on a typed draft, adding appends the new service to the typed list |
| ServicesManager.NewService | src/pages/admin/ServicesManager.tsx:35-46 | the new service's id is `service-` followed by digits that read back as the creation time; its title is `New Service`/`Nouveau Service`, its description `Service description`/`Description du service` and its icon `circle` |
| ServicesManager.DeleteServiceTyped | src/pages/admin/ServicesManager.tsx:59-70 | on a typed draft, deleting removes the typed service at the index |
| ServicesManager.ServicePath | src/pages/admin/ServicesManager.tsx:18-27 | a service edit writes the path `services`, the index, then the field's dotted keys |
| ServicesManager.ServiceChangeKeepsRest | src/pages/admin/ServicesManager.tsx:18-32 | editing one service keeps the number of services, every other service and every other member of the draft |
| ServicesManager.AddService | src/pages/admin/ServicesManager.tsx:34-57 | the new draft object describes the added-service document, and the store's settings are untouched |
| ServicesManager.DeleteService | src/pages/admin/ServicesManager.tsx:59-70 | the new draft object describes the deleted-service document, and the store's settings are untouched |
| ServicesManager.HandleServiceChange | src/pages/admin/ServicesManager.tsx:18-32 | the new draft is the dotted-path assignment of the service path, or the thrown error with the draft kept. When the settings reach the same service object at that index (through a shared services array, or a shared element after an earlier services operation copied the array), the settings change identically |
| WorkingHours.Rows | src/pages/admin/WorkingHours.tsx:11-50 | seven rows, Monday first, each showing the stored English and French hours and writing its own paths |
| WorkingHours.DayKeys | src/pages/admin/WorkingHours.tsx:11-19 | the day keys are `monday` to `sunday` in that order, distinct and free of dots |
| WorkingHours.Shown | src/pages/admin/WorkingHours.tsx:35 | an input shows `''` when the stored value is missing, the stored string otherwise, and never anything but `''` or what is stored |
| WorkingHours.EditPath | src/pages/admin/WorkingHours.tsx:36 | an input's path splits back into `workingHours`, the locale and the day |
| WorkingHours.EditPathsDistinct | src/pages/admin/WorkingHours.tsx:36-44 | the fourteen inputs write fourteen different paths |
| WorkingHours.EditShows | src/pages/admin/WorkingHours.tsx:35-36 | after an edit the input shows the typed text |
| WorkingHours.EditKeepsOthers | src/pages/admin/WorkingHours.tsx:35-44 | an edit leaves what every other input shows unchanged |
| WorkingHours.EditWithoutTable | src/pages/admin/WorkingHours.tsx:36 | without a `workingHours` member an edit throws reading the locale; without the locale it throws setting the day |
| WorkingHours.ShownFromSettings | src/pages/admin/WorkingHours.tsx:35 | an input shows the stored hours, or `''` when the table, the locale or the day is missing |
| LanguageContext.Lookup | src/contexts/LanguageContext.tsx:126-128 | a key is found exactly when the table lists it, with the entry of its last occurrence |
| LanguageContext.EntryOrKey | src/contexts/LanguageContext.tsx:127 | a missing or empty entry gives the key back; any other entry is returned as it is |
| LanguageContext.Translate | src/contexts/LanguageContext.tsx:126-128 | `t` answers exactly for `en` and `fr`, with the entry or, when it is missing or empty, the key |
| LanguageContext.InitialLanguage | src/contexts/LanguageContext.tsx:116-119 | the language starts as the non-empty stored value, else `en` |
| LanguageContext.SiteSound | src/contexts/LanguageContext.tsx:15-108 | both shipped tables list the same 32 keys, each with a non-empty entry |
| LanguageContext.ListedKeysTranslate | src/contexts/LanguageContext.tsx:126-128 | a listed key translates to its non-empty entry in both languages |
| LanguageContext.UnlistedKeyFallsBack | src/contexts/LanguageContext.tsx:127 | an unlisted key comes back unchanged |
| LanguageContext.UnknownLanguageThrows | src/contexts/LanguageContext.tsx:116-128 | a stored language other than the two tables makes every lookup throw |
| LanguageContext.LanguageProvider.constructor | src/contexts/LanguageContext.tsx:116-124 | the initial language is written back to storage |
| LanguageContext.LanguageProvider.SetLanguage | src/contexts/LanguageContext.tsx:121-124 | after a switch, storage holds the new language and a reload starts in it |
| LandingContent.SectionsKeys | src/hooks/useLandingContent.tsx:43-48 | a section is in the map exactly when some row with that key has object or array content |
| LandingContent.Sections | src/hooks/useLandingContent.tsx:43-48 | every section in the map holds object or array content that some row with that key carries |
| LandingContent.LaterRowWins | src/hooks/useLandingContent.tsx:43-48 | when rows repeat a key, the last row that counts supplies the section |
| LandingContent.CollectSections | src/hooks/useLandingContent.tsx:42-48 | the loop builds the section map of the rows, or the empty map for a null result |
| LandingContent.LandingContentHook.constructor | src/hooks/useLandingContent.tsx:30-32 | the hook starts with no content, loading, and no error |
| LandingContent.LandingContentHook.FetchContent | src/hooks/useLandingContent.tsx:34-56 | on success the content is the rows' section map; on failure the content is kept and the message recorded; loading is off either way |
| LandingContent.LandingContentHook.UpdateContent | src/hooks/useLandingContent.tsx:58-75 | the map changes only after the backend accepts, and only in that section; a failure is recorded and thrown again |
| ContentManager.AddItem | src/pages/admin/ContentManager.tsx:89-94 | adding keeps the title and the items and appends one empty service |
| ContentManager.UpdateItem | src/pages/admin/ContentManager.tsx:96-103 | editing keeps the title, the length and every other item, and sets the field of the item at the index |
| ContentManager.RemoveItem | src/pages/admin/ContentManager.tsx:105-110 | removing drops the item at the index and keeps the others in order |
| ContentManager.AddThenRemove | src/pages/admin/ContentManager.tsx:89-110 | removing the item just added gives back the list |
| ContentManager.UpdateKeepsOtherMembers | src/pages/admin/ContentManager.tsx:96-103 | editing one field of an item keeps its other members |
| ContentManager.DefaultsOfEmpty | src/pages/admin/ContentManager.tsx:17-38 | from an empty content map, every draft field is `''` and the services list is empty |
| ContentManager.Defaults | src/pages/admin/ContentManager.tsx:17-38 | the initial drafts are exactly what the re-sync effect makes from blank drafts |
| ContentManager.Resynced | src/pages/admin/ContentManager.tsx:40-68 | a section present in the map overwrites its draft with the section's fields; an absent or empty one keeps the draft |
| ContentManager.WithField | src/pages/admin/ContentManager.tsx:100 | the edited item is an object whose field reads the value, with the same other members as the spread of the old item |
| ContentManager.ResyncDefaults | src/pages/admin/ContentManager.tsx:17-68 | re-syncing the drafts that a content map seeded changes nothing |
| ContentManager.SaveThenResync | src/pages/admin/ContentManager.tsx:40-87 | a saved section comes back unchanged through the re-sync that follows the save |
| ContentManager.ContentManagerPage.constructor | src/pages/admin/ContentManager.tsx:17-38 | the page starts with empty drafts and is not saving |
| ContentManager.ContentManagerPage.Load | src/pages/admin/ContentManager.tsx:40-68 | a fetched content map re-syncs the drafts; a failed fetch keeps them |
| ContentManager.ContentManagerPage.HandleSaveSection | src/pages/admin/ContentManager.tsx:70-87 | saving is on during the update and off after it. On success the section is replaced and the drafts re-synced; on failure nothing changes |
| ContentManager.ContentManagerPage.AddService | src/pages/admin/ContentManager.tsx:89-94 | only the services draft changes, by the add |
| ContentManager.ContentManagerPage.UpdateService | src/pages/admin/ContentManager.tsx:96-103 | only the services draft changes, by the edit |
| ContentManager.ContentManagerPage.RemoveService | src/pages/admin/ContentManager.tsx:105-110 | only the services draft changes, by the removal |
| Urls.Mailto | src/components/ContactSection.tsx:58 | a `mailto:` link is the scheme followed by the address, unencoded |
| ContactSection.KeepDigits | src/components/ContactSection.tsx:53 | the filtered number holds only digits and is no longer than the setting |
| ContactSection.KeepDigitsCounts | src/components/ContactSection.tsx:53 | every digit occurs as often after the filter as before it |
| ContactSection.KeepDigitsIdentity | src/components/ContactSection.tsx:53 | the filter changes a number exactly when it holds a non-digit |
| ContactSection.KeepDigitsIdempotent | src/components/ContactSection.tsx:53 | filtering twice is filtering once |
| ContactSection.SocialLinks | src/components/ContactSection.tsx:34-60 | five links in order. Instagram and Linktree point to their settings as stored; TikTok is its setting, undefined exactly when that is; WhatsApp is the prefix followed by digits only; Email is the `mailto:` link |
| ContactSection.WhatsAppLinkNumber | src/components/ContactSection.tsx:53 | the WhatsApp link carries the setting's digits, and equals the unfiltered link exactly when the setting is all digits |
| ContactSection.MailBody | src/components/ContactSection.tsx:26 | the body is `From: `, the name, ` (`, the email, `)` and a blank line, then the message |
| ContactSection.MailLink | src/components/ContactSection.tsx:27 | two pieces: the literal `mailto:` address with the subject naming the sender, then the body, which is the only text handed to the encoder |
| ContactSection.ContactForm.constructor | src/components/ContactSection.tsx:12-16 | the form starts with every field empty |
| ContactSection.ContactForm.HandleInputChange | src/components/ContactSection.tsx:18-21 | only the named field changes |
| ContactSection.ContactForm.HandleSubmit | src/components/ContactSection.tsx:23-32 | the opened link is built from the form's contents, and the form is empty afterwards |
| ContactSection.HoursShown | src/components/ContactSection.tsx:173-186 | the block is absent exactly without a table, lists every entry of the language's table (empty ones included) when it has one, and is empty for a language the table lacks |
| ContactSection.HoursShownMatchEditor | src/components/ContactSection.tsx:173-186 | a day is listed with a non-empty value exactly when the admin editor shows a non-empty value for it, and every listed day carries what the editor shows |
| DynamicHero.NameLines | src/components/DynamicHero.tsx:52-54 | the first headline line contains no space |
| DynamicHero.NameSplit | src/components/DynamicHero.tsx:52-54 | the two lines rejoined with a space give the name; a name without a space is the first line alone |
| DynamicHero.LogoAlt | src/components/DynamicHero.tsx:45 | the alternative text is the brand name followed by the fixed suffix |
| DynamicHero.Tagline | src/components/DynamicHero.tsx:59 | the tagline is defined exactly for `en` and `fr`, as the matching entry |
| DynamicHero.WhatsAppLink | src/components/DynamicHero.tsx:12-15 | the link exists exactly for a known language. It is two pieces: the number as stored, then the translated booking message, the only text handed to the encoder |
| DynamicHero.EmailLink | src/components/DynamicHero.tsx:17-19 | the hero's email link is the contact section's Email link |
| DynamicHero.WhatsAppNumbersAgree | src/components/DynamicHero.tsx:14 | the hero link keeps the number as stored, so it matches the contact section's exactly when the number is all digits |
| UseAuth.Selected | src/hooks/useAuth.tsx:74-77 | a field is sent exactly when it is present and non-empty, with its value |
| UseAuth.UpdateProfile | src/hooks/useAuth.tsx:70-103 | no user gives an error and no request. An empty update sends nothing. Otherwise the auth update is sent first; an auth error stops there with that error, else the profile row update is sent as well, and a profile error is reported as the result. The result has no error exactly when nothing failed |
| UseAuth.Extension | src/hooks/useAuth.tsx:108 | the extension contains no dot |
| UseAuth.ExtensionWithoutDot | src/hooks/useAuth.tsx:108 | a name without a dot is its own extension |
| UseAuth.ExtensionAfterLastDot | src/hooks/useAuth.tsx:108 | the extension is the text after the last dot |
| UseAuth.ObjectNameExtension | src/hooks/useAuth.tsx:108-109 | the stored object keeps the file's extension |
| UseAuth.ObjectNamesDiffer | src/hooks/useAuth.tsx:109 | uploads of one file by one user at different times name different objects |
| UseAuth.ObjectName | src/hooks/useAuth.tsx:109 | the object is stored in the user's folder, under the upload time |
| UseAuth.UploadAvatar | src/hooks/useAuth.tsx:105-124 | no user gives an error and no request. Otherwise exactly one upload under the object name is sent; a storage error is returned as the error, and otherwise the public URL is returned |
| ProfileSettings.Initials | src/pages/admin/ProfileSettings.tsx:180-182 | the initials contain no lower-case ASCII letter |
| ProfileSettings.InitialsOfWord | src/pages/admin/ProfileSettings.tsx:180-182 | one word gives its upper-cased first letter; the empty name gives nothing |
| ProfileSettings.InitialsOfWords | src/pages/admin/ProfileSettings.tsx:180-182 | the initials of several words are those of the first word followed by those of the rest |
| ProfileSettings.ProfileSettingsPage.constructor | src/pages/admin/ProfileSettings.tsx:17-31 | the form starts from the user's name, email and avatar (or `''`), with empty passwords and no flag on |
| ProfileSettings.ProfileSettingsPage.HandleInputChange | src/pages/admin/ProfileSettings.tsx:33-35 | only the named field changes |
| ProfileSettings.ProfileSettingsPage.HandleProfileUpdate | src/pages/admin/ProfileSettings.tsx:37-69 | the name and email are sent through `updateProfile`; the profile flag is on only during the call |
| ProfileSettings.ProfileSettingsPage.HandlePasswordUpdate | src/pages/admin/ProfileSettings.tsx:71-125 | a mismatch, then a password under six characters, is refused before any request. A request clears the flag afterwards, and on success empties the three fields |
| ProfileSettings.ProfileSettingsPage.HandleAvatarUpload | src/pages/admin/ProfileSettings.tsx:127-178 | no file, a file over 5 MiB, then a non-image, is refused before any request. A reported non-empty URL becomes the avatar and is written to the profile |
| UserManagement.RoleBadgeVariant | src/pages/admin/UserManagement.tsx:111-118 | `admin` gets `destructive`, `editor` `default`, `viewer` `secondary`, and any other text `outline` |
| UserManagement.BadgesOfRoles | src/pages/admin/UserManagement.tsx:111-118 | the three roles have three different badges, none of them `outline` |
| UserManagement.UserManagementPage.constructor | src/pages/admin/UserManagement.tsx:17-31 | both dialogs are closed, nothing is selected, and the new-user form is empty with role `viewer` |
| UserManagement.UserManagementPage.HandleCreateUser | src/pages/admin/UserManagement.tsx:33-59 | a request is sent exactly when email, password and name are filled. Success resets the form and closes the dialog; failure keeps both |
| UserManagement.UserManagementPage.HandleEditUser | src/pages/admin/UserManagement.tsx:61-84 | a request is sent exactly when a user is selected, with the form's name and role. Success closes the dialog and clears the selection |
| UserManagement.UserManagementPage.OpenEditDialog | src/pages/admin/UserManagement.tsx:102-109 | the dialog opens on the user, with the form holding the user's name (or `''`) and role |
| ForgotPassword.ForgotPasswordPage.HandleSubmit | src/pages/ForgotPassword.tsx:18-58 | an empty email is refused before any request. Otherwise loading is on only during the request, and only an error-free answer switches to the sent view |
| ForgotPassword.ForgotPasswordPage.constructor | src/pages/ForgotPassword.tsx:14-16 | the page starts with an empty email, not loading and no email sent |
| ForgotPassword.ForgotPasswordPage.SetEmail | src/pages/ForgotPassword.tsx:119 | typing changes the email and nothing else |
| ForgotPassword.ForgotPasswordPage.TryDifferentEmail | src/pages/ForgotPassword.tsx:81-84 | back to the form with an empty email |
| InitialSetup.InitialSetupPage.SubmitEnabled | src/components/InitialSetup.tsx:98 | the button is enabled exactly when not loading and every field is filled |
| InitialSetup.InitialSetupPage.HandleSubmit | src/components/InitialSetup.tsx:18-31 | a missing field is refused before any request. Otherwise loading is on only during the request; success clears the form; a missing result throws |
| InitialSetup.InitialSetupPage.SetField | src/components/InitialSetup.tsx:56-88 | only the named field of the form changes |
| InitialSetup.InitialSetupPage.constructor | src/components/InitialSetup.tsx:11-16 | the form starts empty and not loading |
| ScrollAnimation.ScrollReveal.constructor | src/hooks/useScrollAnimation.tsx:10-12 | the element starts hidden and observed, with defaults `0px` and trigger-once |
| ScrollAnimation.ScrollReveal.OnEntry | src/hooks/useScrollAnimation.tsx:19-28 | an entry in view makes the element visible. In trigger-once mode it stays visible and is no longer observed; otherwise visibility follows every report |
| ScrollAnimation.DelayClass | src/hooks/useScrollAnimation.tsx:47 | the delay class is empty exactly when there is no positive delay, and otherwise `delay-` followed by the delay's decimal digits |
| ScrollAnimation.GetAnimationClasses | src/hooks/useScrollAnimation.tsx:41-68 | the string starts with the base classes and ends with the delay class, of delay 0 when none is given |
| ScrollAnimation.ClassTokens | src/hooks/useScrollAnimation.tsx:41-68 | the class string lists the base classes, the animation's classes, then the delay class |
| ScrollAnimation.Opacity | src/hooks/useScrollAnimation.tsx:48-66 | every animation shows `opacity-100` exactly when visible and `opacity-0` exactly when hidden |
| ScrollAnimation.TrailingSpace | src/hooks/useScrollAnimation.tsx:67 | without a delay the string ends with a space |
| ScrollAnimation.Defaults | src/hooks/useScrollAnimation.tsx:41-44 | the defaults are `fade-up` with no delay |

## Left out

- JSON numbers, booleans and `null` are not modelled. The settings and landing content
  hold strings, objects and arrays; a `null` row content is modelled as absent.
- Assigning an array property other than an existing element (a new index, `length`)
  is reported as `ArrayWriteNotModelled` rather than modelled.
- `JSON.stringify`/`JSON.parse` are not re-implemented. Storage holds either a
  serialised document or unparseable text.
- The bundled seed file `src/data/brandSettings.json` is not part of this model. The seed
  is a parameter.
- Toasts, `window.open`, `document.documentElement.lang`, `scrollIntoView`, console
  output and navigation are left out. The links that would be opened are returned instead.
- The intersection observer's `threshold`, the unobserve cleanup on unmount and the case
  of a missing element are left out. `OnEntry` is one callback for one entry.
- `handleDeleteUser`, the listing of users and the internals of `useUsers` and
  `useInitialSetup` are left out. Only their results are modelled, as inputs.
- The ContentManager inputs bound to each draft field are not modelled one by one.
  Each simply replaces one field of one draft.
- ContentManager.Field: a truthy non-string member of a section is read as `''`, where the
  page would put that value into the draft.
- ContentManager.Items: a truthy non-array `services` member is read as `[]`, where the
  page would keep that value.
- ContactSection.HoursShown: the block is a map, so the order in which `Object.entries`
  lists the days is not modelled.
- LanguageContext.Lookup: inherited `Object.prototype` keys (such as `constructor`) are
  not looked up.
- ProfileSettings.ProfileSettingsPage.HandlePasswordUpdate: `.length` counts UTF-16 code
  units, while the model counts characters. The thrown-exception branch of the request
  is not an input; a returned error is.
- ProfileSettings.ProfileSettingsPage.HandleProfileUpdate: the thrown-exception branch
  is not an input. The backend's returned errors are.
- ProfileSettings.Initials: upper-casing maps only the ASCII letters `a` to `z`.
  JavaScript's `toUpperCase` maps every cased letter (`é` to `É`) and can lengthen the
  text (`ß` to `SS`). `n[0]` takes the first UTF-16 code unit, where the model takes the
  first character.
- ContactSection.MailLink: the sender's name goes into the subject unencoded, as the
  code writes it. The link is returned as pieces, so how a mail client reads a name
  holding `&` or `#` is not modelled.
- ScrollAnimation.DelayClass: the delay is a whole number. Fractional delays are not
  modelled.
- ServicesManager.HandleServiceChange: its statement about the store's settings covers
  the settings reaching the edited service at the same index of their own `services`
  array. A settings tree that holds that service object under any other path is not
  covered by it.
- ContentManager.ContentManagerPage.HandleSaveSection: that `saving` is on during the
  request is recorded in a ghost field, not observed through a render.
- React's rendering, batching and effect scheduling are not modelled. Each handler runs
  its updates and then the effects they trigger, in order.
- Network requests, the clock, storage and the user's file are parameters, not modelled
  systems.
