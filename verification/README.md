# SaaS starter kit: navigation rules, validators and mutation workflows

This project is a Dafny model of the logic inside the MUI screens of a
Next.js SaaS starter kit and of its `/api/users` route. Nothing in it
renders; what remains is three groups of rules.

- **Path and navigation derivation.**
  - `Breadcrumbs`: the breadcrumb list built from the URL path.
  - `TeamTab`: the team page's tab bar, its selected index and tab changes.
  - `MenuContent`: the side menu and its `active` flags.
  - `SelectContent`: the team switcher. This covers the current-team lookup, the select's value, the three menu sections, and the flat element list numbered by a running key counter.
- **Validators and decision cascades.**
  - `UploadAvatar`: the avatar file check (size first, then type) and the save guard.
  - `UsersApi`: the `/api/users` handler. It covers method dispatch, the mapping from thrown errors to responses, GET, and the three ordered email-change checks of PUT.
- **Mutation workflows.** Each screen keeps a small state: dialog visibility, the selected row, a loading flag, and a form. The server's answer is an input `Outcome = Ok(data) | Err(message)`. The screen emits a trace of effects:
  - the request it sends;
  - error and success toasts;
  - cache invalidations;
  - `push`/`replace` navigations;
  - session updates, loading flips, form resets and dialog closes.

  The modules are `ConfirmationDialog`, `APIKeys`, `NewAPIKey`, `Members`, `PendingInvitations`, `RemoveTeam`, `Teams`, `TeamSettings`, `UpdatePassword`, `UpdateName`, `UpdateEmail` and `InviteViaEmail`.

Shared modules:
- `Strings`: JavaScript `split`/`join`/`startsWith`/`includes`, `.length` in UTF-16 code units (the length Yup's `min`/`max` rules compare), ASCII upper-casing, and `toString` of a natural number with its read-back.
- `Effects`: the outcome, request and effect vocabulary. `Report` is the one failure/success reporting shape every screen uses. `SendThenReport` states that shape once for all screens.
- `Forms`: the part of formik the screens rely on. `dirty` means values differ from the initial values. `enableReinitialize`, `resetForm`, and the two submit guards are also here: one guard includes `isSubmitting` and one does not.

Each screen wires the confirmation dialog through `ConfirmationDialog.Run`. The screen passes its own `onConfirm` and `onCancel`, so the dialog's rule is stated and proved once: confirm runs `onConfirm` and then `onCancel`, while cancel and close run `onCancel` alone. Each screen's flow lemma builds on it.

Opaque inputs are parameters:
- the permission hook's `canAccess` and the team feature flags;
- the translation function `t` and the date formatter;
- the zod and Yup schemas, as predicates, `Parse` results or the policy numbers they read;
- the handler's collaborators (session, `env.confirmEmail`, `isEmailAllowed`, `getUser`, `getUserBySession`, validation, `updateUser` failure), gathered in `UsersApi.Server`;
- the FileReader's data URL.

## Notes on the code

- NewAPIKey.tsx:90-92 and InviteViaEmail.tsx:63-65 disable their submit button on `!dirty || !isValid` alone, without an `isSubmitting` test, unlike the other forms. `Forms.DisabledIgnoringSubmit` models them, and `Forms.GuardsDifferOnlyWhileSubmitting` states exactly where the two guards part.
- The screens show `error.message` from a failed request directly, with no fallback text. Only the API route falls back to a generic message (users.ts:30), as `UsersApi.ErrorMapping` states.
- A create-key response whose `apiKey` is empty shows no success toast (NewAPIKey.tsx:83-86), as `NewAPIKey.CreateOutcome` states.
- The team-create request goes to `/api/teams/`, with a trailing slash (Teams.tsx:167).

## Model

| member | source | states |
|---|---|---|
| Strings.Split | components/mui/dashboard/components/NavbarBreadcrumbs.tsx:29 | `split('/')` always yields at least one piece, and no piece contains the separator |
| Strings.JoinSplit | components/mui/dashboard/components/NavbarBreadcrumbs.tsx:29-34 | joining the pieces of a split with the same separator gives back the original string |
| Strings.SplitJoin | components/mui/dashboard/components/NavbarBreadcrumbs.tsx:29-34 | splitting a join of separator-free parts gives back exactly those parts (the inverse direction) |
| Strings.UpperChar | components/mui/dashboard/components/NavbarBreadcrumbs.tsx:38 | a lower-case ASCII letter becomes its upper-case letter, and every other character is unchanged |
| Strings.JsLength | components/team/mui/Teams.tsx:164 | JavaScript `.length`, the number Yup's `min`/`max` compare, counts UTF-16 code units: between one and two per character, and exactly one per character iff no character lies beyond U+FFFF |
| Strings.JsLengthAppend | components/team/mui/Teams.tsx:164 | the length of a concatenation is the sum of the lengths |
| Strings.AllAstral | components/team/mui/Teams.tsx:164 | a string made only of characters beyond U+FFFF has twice as many code units as characters |
| Strings.NatToString | components/team/mui/Teams.tsx:153 | a member count renders as decimal digits with no sign and no leading zero |
| Strings.ParseNatToString | components/team/mui/Teams.tsx:153 | reading the rendered digits back gives the original count, so the rendering loses nothing |
| Forms.Fresh | components/account/mui/UpdatePassword.tsx:23-27 | a form built from initial values is not dirty and not submitting |
| Forms.Edit | components/team/mui/Teams.tsx:213-214 | after an edit the form holds exactly the typed values, with initial values and submitting flag unchanged; the form is dirty exactly when the new values differ from the initial ones |
| Forms.Reset | components/account/mui/UpdatePassword.tsx:44 | `resetForm` restores the initial values, and the form is then neither dirty nor submitting |
| Forms.Reinitialize | components/account/mui/UpdateName.tsx:19-24 | under `enableReinitialize`, new initial values reset the form to them (not dirty); the same initial values keep the form as it is |
| Forms.EnabledIff | components/account/mui/UpdatePassword.tsx:48-50 | the guarded submit button is enabled exactly when the form is dirty, valid and not submitting |
| Forms.PristineDisabled | components/account/mui/UpdatePassword.tsx:24-50 | a pristine or reset form cannot be submitted under either guard |
| Forms.GuardsDifferOnlyWhileSubmitting | components/apiKey/mui/NewAPIKey.tsx:90-92 | the guard without `isSubmitting` differs from the full guard only for a dirty, valid form that is in flight |
| Breadcrumbs.NonEmpty | components/mui/dashboard/components/NavbarBreadcrumbs.tsx:29 | `filter(Boolean)` is never longer than its input and keeps no empty string |
| Breadcrumbs.NonEmptyOfNonEmpty | components/mui/dashboard/components/NavbarBreadcrumbs.tsx:29 | filtering a list that has no empty strings leaves it unchanged |
| Breadcrumbs.Segments | components/mui/dashboard/components/NavbarBreadcrumbs.tsx:29 | every segment is non-empty and contains no "/" |
| Breadcrumbs.Capitalize | components/mui/dashboard/components/NavbarBreadcrumbs.tsx:38 | the name has its segment's length, an upper-cased first character, and the rest of the segment unchanged |
| Breadcrumbs.Build | components/mui/dashboard/components/NavbarBreadcrumbs.tsx:32-41 | one crumb per non-empty segment, in path order; crumb i is named after segment i and links to "/" followed by segments 0..i joined with "/" |
| Breadcrumbs.Render | components/mui/dashboard/components/NavbarBreadcrumbs.tsx:22-41 | a null pathname makes `path.split` throw, so the component crashes exactly when there is no pathname. Otherwise there is one crumb per non-empty segment, each with a non-empty name and a link starting with "/" |
| Breadcrumbs.NamesKeepSegments | components/mui/dashboard/components/NavbarBreadcrumbs.tsx:38 | each crumb name is non-empty and differs from its segment only in an upper-cased first character |
| Breadcrumbs.NoCrumbsIffOnlySlashes | components/mui/dashboard/components/NavbarBreadcrumbs.tsx:29-32 | a path yields no crumbs exactly when it consists only of slashes, so "" and "/" give none |
| Breadcrumbs.LinkChain | components/mui/dashboard/components/NavbarBreadcrumbs.tsx:34 | each link equals the previous link plus "/" and one segment, so it is a strictly longer extension of the previous one |
| Breadcrumbs.Idempotent | components/mui/dashboard/components/NavbarBreadcrumbs.tsx:29-34 | the last link is the path with empty segments collapsed, and building crumbs from it gives the same list |
| TeamTab.NavigationsBuilt | components/team/mui/TeamTab.tsx:43-131 | after the guarded pushes, every tab is present exactly when an independent `Shown` rule holds, with entries in strictly increasing tab order. `Shown` means Settings, or feature flag on and all four actions on the tab's resource |
| TeamTab.NavigationsShape | components/team/mui/TeamTab.tsx:43-131 | the bar has 1 to 8 entries, with Settings first. Each tab is present iff `Shown`, in the fixed order. Every href is under /teams/{slug}/, and an entry is active iff `activeTab` is its key |
| TeamTab.MembersIff | components/team/mui/TeamTab.tsx:52-59 | "Members" is in the bar exactly when the user holds create/update/read/delete on `team_member` |
| TeamTab.ActiveKeyInjective | components/team/mui/TeamTab.tsx:47-128 | no two tabs share an active key (Billing answers to 'payments') |
| TeamTab.AtMostOneActive | components/team/mui/TeamTab.tsx:43-131 | no two entries of the bar are active at once |
| TeamTab.FirstActive | components/team/mui/TeamTab.tsx:138 | `findIndex` returns the first active entry, or -1 exactly when none is active |
| TeamTab.SyncValue | components/team/mui/TeamTab.tsx:136-142 | the selected value becomes the first active index when one exists and otherwise keeps its previous value |
| TeamTab.SelectionFollowsActiveTab | components/team/mui/TeamTab.tsx:134-142 | on a page whose `activeTab` names a shown tab the selection lands on that tab; on any other page the previous value (initially -1) stays |
| TeamTab.TabsValue | components/team/mui/TeamTab.tsx:154 | -1, and only -1, is rendered as "no tab selected"; any other value is passed through |
| TeamTab.HandleChange | components/team/mui/TeamTab.tsx:144-146 | choosing tab n pushes the href of entry n |
| TeamTab.ChangeStaysInTeam | components/team/mui/TeamTab.tsx:144-146 | every tab change navigates to a page under /teams/{slug}/ |
| TeamTab.PushAll | components/team/mui/TeamTab.tsx:52-131 | the guarded pushes only append: earlier entries stay first, and each guard adds at most one entry |
| TeamTab.Navigations | components/team/mui/TeamTab.tsx:43-131 | the bar always starts with the Settings entry and has between one and eight entries |
| MenuContent.Navigation | components/mui/dashboard/components/MenuContent.tsx:86-141 | with a slug there are two main items and no secondary ones; without one there are two of each |
| MenuContent.TeamMenu | components/mui/dashboard/components/MenuContent.tsx:88-104 | both team items lead under /teams/{slug}. On the products page only products is active, and outside /teams/{slug} neither is. A team whose slug contains "products" never gets settings highlighted, even on its own settings page |
| MenuContent.TeamItemsExclusive | components/mui/dashboard/components/MenuContent.tsx:95-103 | products and settings are never both active |
| MenuContent.NullPathnameNothingActive | components/mui/dashboard/components/MenuContent.tsx:86-139 | with a null pathname no item is active, in either branch |
| MenuContent.UserMenu | components/mui/dashboard/components/MenuContent.tsx:109-139 | user menu: main is /teams, /settings/mui; secondary is /settings/account, /settings/security. Each item is active iff the pathname equals its href, so at most one is active |
| SelectContent.Find | components/mui/dashboard/components/SelectContent.tsx:54-56 | the result is the first team whose slug equals the route slug, and none exactly when no team matches |
| SelectContent.CurrentTeam | components/mui/dashboard/components/SelectContent.tsx:54-56 | the current team is a listed team carrying the route's slug, and there is none exactly when no listed team has that slug |
| SelectContent.SyncCompany | components/mui/dashboard/components/SelectContent.tsx:58-66 | while the pathname is null the value is untouched. Once it is known, the value is the account page exactly when there is no current team, and otherwise a page under /teams/{slug} of the current team |
| SelectContent.Click | components/mui/dashboard/components/SelectContent.tsx:68-70 | clicking an item is a `push` to the item's href: a navigation that sends no request |
| SelectContent.Menus | components/mui/dashboard/components/SelectContent.tsx:72-120 | there are three sections, and the first has one item per team |
| SelectContent.MenusLayout | components/mui/dashboard/components/SelectContent.tsx:68-120 | team items link to /teams/{slug}/settings in list order, the profile holds /settings/account, and the last section holds /teams?newTeam=true. Only the last section shows its divider, and clicking an item pushes its href |
| SelectContent.SectionSlots | components/mui/dashboard/components/SelectContent.tsx:124-137 | a section contributes a divider, a subheader and one element per item |
| SelectContent.LayoutLength | components/mui/dashboard/components/SelectContent.tsx:122-138 | the flattened list has Σ(2 + items) elements over the sections |
| SelectContent.RenderMenuItems | components/mui/dashboard/components/SelectContent.tsx:122-138 | the counter gives element i the key i+1, and the elements are the flattened sections in order |
| SelectContent.SelectedValueIsAnItem | components/mui/dashboard/components/SelectContent.tsx:58-66 | while the pathname is null the value is untouched. Once it is known the value is an item's href: the current team's entry when the route slug names a listed team, else /settings/account |
| UploadAvatar.TooBigIff | components/account/mui/UploadAvatar.tsx:46 | the quotient test `size/1024/1024 > 2` holds exactly when size exceeds 2·1024·1024 bytes |
| UploadAvatar.CheckFileIff | components/account/mui/UploadAvatar.tsx:45-54 | a file is accepted exactly when it is a PNG or JPEG of at most 2 MB. An oversized file gets the size error whatever its type, and a wrong type within the limit gets the type error |
| UploadAvatar.UploadOutcome | components/account/mui/UploadAvatar.tsx:45-63 | a file upload never sends a request. An accepted file silently becomes the preview; a rejected one changes nothing and shows one error toast |
| UploadAvatar.InitialGuard | components/account/mui/UploadAvatar.tsx:18-23 | the preview starts as the user's image, or else the initials URL seeded with the name. Save starts disabled exactly when the user has an image |
| UploadAvatar.SameImageDisabled | components/account/mui/UploadAvatar.tsx:86-88 | re-uploading the stored image cannot make save possible, and a form that is loading is always disabled |
| UploadAvatar.SubmitTrace | components/account/mui/UploadAvatar.tsx:65-84 | submit sends exactly one PUT of `{ image }`, brackets it with loading on/off, and ends not loading. It never navigates or invalidates, and shows the server message on failure or the success text otherwise |
| UploadAvatar.SyncImage | components/account/mui/UploadAvatar.tsx:18-23 | after the effect the preview is always a non-empty image, and it is the user's own image whenever that is truthy |
| UploadAvatar.CheckFile | components/account/mui/UploadAvatar.tsx:45-54 | no error exactly for a PNG or JPEG of at most 2 MB, and the size error for any file over 2 MB |
| UploadAvatar.OnAvatarUpload | components/account/mui/UploadAvatar.tsx:45-63 | an upload sends nothing and keeps the loading flag. An accepted file becomes the preview with no toast; a rejected one leaves the state alone and emits one effect |
| UploadAvatar.IsDisabled | components/account/mui/UploadAvatar.tsx:86-88 | an enabled save button always has a non-empty image that differs from the stored one and nothing in flight, so the body it sends is `{ image }` |
| UploadAvatar.HandleSubmit | components/account/mui/UploadAvatar.tsx:65-84 | one PUT of the preview to /api/users; the preview is kept, loading is off at the end, and nothing invalidates or navigates |
| UsersApi.Dispatch | pages/api/users.ts:16-28 | only GET and PUT are served. Any other method, undefined included, gets 405 with `Allow: PUT` and "Method {m} Not Allowed". Only PUT writes, at most once |
| UsersApi.ErrorMapping | pages/api/users.ts:29-34 | a thrown error answers with its status or 500 and its message or "Something went wrong", never status 0 or an empty message |
| UsersApi.GetUser | pages/api/users.ts:38-57 | GET is 401 `{ error: 'Unauthorized' }` exactly without a session. Otherwise it is 200, and the body's id, name, email and image equal the stored row's |
| UsersApi.EmailWriteRequiresChecks | pages/api/users.ts:64-85 | a write with an email happens only if confirmEmail is exactly false, the domain is allowed, and the address is free or the session user's own. The write is the validated data for the session user |
| UsersApi.EmailCascade | pages/api/users.ts:64-80 | the three checks run in order, and the first failure answers 400 with its own message and no write. When all pass, the data is written |
| UsersApi.NoSessionEmailTaken | pages/api/users.ts:75-79 | without a session, any address that already has an owner is "Email already in use." |
| UsersApi.NoEmailSkipsChecks | pages/api/users.ts:82-89 | a body without `email` is written whatever the email settings, and is answered 204 with no body exactly when the write does not throw |
| UsersApi.InvalidBodyNotWritten | pages/api/users.ts:59-60 | an invalid body is answered from the validation error and never written |
| UsersApi.PutSucceedsIff | pages/api/users.ts:59-90 | PUT answers 204 with no body exactly when the body is valid, every applicable email check passes, and the write does not throw |
| UsersApi.GetHidesServerColumns | pages/api/users.ts:44-56 | GET leaks none of the stored row's server-only columns: changing them leaves the response unchanged |
| UsersApi.ErrorResponse | pages/api/users.ts:29-34 | the catch block never answers with status 0 or an empty message, and passes a truthy status and message through |
| UsersApi.HandleGet | pages/api/users.ts:38-57 | 401 exactly without a session; otherwise 200 with exactly the session user's four public fields |
| UsersApi.EmailCheck | pages/api/users.ts:64-80 | no error exactly when confirmEmail is false, the domain is allowed and the address is free or the session user's own; every error is a 400 with a message |
| UsersApi.HandlePut | pages/api/users.ts:59-90 | at most one write, always one when nothing is thrown, and any write is the validated data for the session user |
| UsersApi.Handler | pages/api/users.ts:11-35 | at most one write, only for PUT, and an empty success answer only after a write that did not throw |
| ConfirmationDialog.Callbacks | components/shared/mui/ConfirmationDialog.tsx:25-43 | every action ends by running `onCancel` |
| ConfirmationDialog.CallbackCounts | components/shared/mui/ConfirmationDialog.tsx:25-43 | every action runs `onCancel` exactly once, and only confirm runs `onConfirm`: once, before `onCancel` |
| ConfirmationDialog.ConfirmThenCancel | components/shared/mui/ConfirmationDialog.tsx:25-28 | confirm yields the confirm handler's effects and then `onCancel` applied to the state it left |
| ConfirmationDialog.CancelOnly | components/shared/mui/ConfirmationDialog.tsx:31-41 | the cancel button and the dialog's close run `onCancel` alone and emit nothing |
| ConfirmationDialog.LabelsFallBack | components/shared/mui/ConfirmationDialog.tsx:40-43 | a given non-empty text is used as is; a missing or empty one falls back to t('cancel') / t('delete') |
| ConfirmationDialog.Run | components/shared/mui/ConfirmationDialog.tsx:25-43 | the effects of an action are exactly the confirm handler's for the confirm button and none for cancel or close |
| APIKeys.NullSelectionNoRequest | components/apiKey/mui/APIKeys.tsx:27-30 | deleting with no selection sends nothing and changes nothing |
| APIKeys.DeleteTrace | components/apiKey/mui/APIKeys.tsx:32-49 | one DELETE of /api/teams/{slug}/api-keys/{id} is sent, and the selection and dialog are cleared whatever the outcome. Failure shows the message without invalidating; success invalidates the key list, then shows success |
| APIKeys.RowsMirrorKeys | components/apiKey/mui/APIKeys.tsx:52-85 | there is one row per key, in order, each with the key's id and name and status t('active'). Missing data gives no rows |
| APIKeys.EmptyStateIff | components/apiKey/mui/APIKeys.tsx:107-134 | the empty state shows exactly when there are no keys, with no grid and no dialog; otherwise the grid shows the rows |
| APIKeys.RevokeFlow | components/apiKey/mui/APIKeys.tsx:66-132 | revoke selects the row and opens the dialog. Cancel only hides it; confirm deletes that row's key and ends with the dialog hidden and nothing selected |
| APIKeys.Rows | components/apiKey/mui/APIKeys.tsx:80-85 | one row per key, in order, with the key's id and name and status t('active') |
| APIKeys.Render | components/apiKey/mui/APIKeys.tsx:107-134 | the empty state exactly when there are no keys; otherwise one row per key and the screen's dialog flag |
| APIKeys.DeleteApiKey | components/apiKey/mui/APIKeys.tsx:27-49 | no selection changes nothing. Otherwise exactly one DELETE of the key, selection and dialog cleared, and a failure that neither invalidates nor navigates |
| NewAPIKey.ShowsIff | components/apiKey/mui/NewAPIKey.tsx:34-43 | the create form shows exactly while no key is held; otherwise the held key is displayed |
| NewAPIKey.ToggleForgets | components/apiKey/mui/NewAPIKey.tsx:28-31 | toggling flips visibility and always forgets the key, and toggling twice restores visibility |
| NewAPIKey.CreateOutcome | components/apiKey/mui/NewAPIKey.tsx:67-87 | for a name the key schema accepts, one POST is sent, and the body decides the result. `error` toasts its message and stores nothing. A non-empty key is stored, then /api/teams/{slug}/api-keys is invalidated, then success shows. An empty key does neither |
| NewAPIKey.CreateGuard | components/apiKey/mui/NewAPIKey.tsx:55-92 | create is enabled exactly for a changed name that `createApiKeySchema` accepts, with no submitting guard; the fresh form is disabled |
| NewAPIKey.Create | components/apiKey/mui/NewAPIKey.tsx:55-87 | one POST of the name exactly when the key schema accepts it, none otherwise; the dialog's visibility is kept, and the held key changes only to a non-empty key the server returned |
| NewAPIKey.InvalidNotSent | components/apiKey/mui/NewAPIKey.tsx:60-67 | a name the key schema rejects is never posted and leaves the dialog as it was, since formik runs `onSubmit` only when `validate` finds no errors |
| Members.RenderPrecedence | components/team/mui/Members.tsx:37-47 | loading wins over an error, and an error over missing members. The grid shows exactly the members once all three checks pass |
| Members.NullSelectionNoRequest | components/team/mui/Members.tsx:49-52 | removing with no selection sends nothing |
| Members.RemoveTrace | components/team/mui/Members.tsx:54-72 | one DELETE is sent with query memberId = the member's user id. Failure shows the message without invalidating; success invalidates members, then shows success |
| Members.NoSelfService | components/team/mui/Members.tsx:75-85 | role editing and removal are offered exactly for other members, each under its own permission, so no one edits their own role or removes themselves |
| Members.ConfirmFlow | components/team/mui/Members.tsx:140-195 | confirming removes the selected member and hides the dialog; cancel and close only hide it |
| Members.Render | components/team/mui/Members.tsx:37-47 | the grid shows exactly when loading is over with no error and members exist, and then holds them unchanged; an error view carries the hook's error |
| Members.RemoveTeamMember | components/team/mui/Members.tsx:49-72 | nothing exactly without a selection; otherwise one DELETE for that member, and a failure neither invalidates nor navigates |
| PendingInvitations.RenderRules | components/invitation/mui/PendingInvitations.tsx:34-70 | loading wins over an error, and absent or empty invitations render nothing. Otherwise the rows are the invitations unchanged |
| PendingInvitations.NullSelectionNoRequest | components/invitation/mui/PendingInvitations.tsx:42-45 | deleting with no selection sends nothing |
| PendingInvitations.DeleteTrace | components/invitation/mui/PendingInvitations.tsx:47-65 | one DELETE is sent with query id = the invitation id. Failure shows the message without invalidating; success invalidates invitations, then shows success |
| PendingInvitations.ConfirmFlow | components/invitation/mui/PendingInvitations.tsx:161-165 | confirming deletes the selected invitation and hides the dialog; cancel and close only hide it |
| PendingInvitations.DeleteInvitation | components/invitation/mui/PendingInvitations.tsx:42-65 | nothing exactly without a selection; otherwise one DELETE for that invitation, and a failure neither invalidates nor navigates |
| RemoveTeam.Gating | components/team/mui/RemoveTeam.tsx:51-81 | button and dialog exist exactly when deletion is allowed, and the description says which case applies. The button is disabled exactly while loading |
| RemoveTeam.RemoveTrace | components/team/mui/RemoveTeam.tsx:24-42 | one DELETE of the team is sent inside loading on/off, and the flow ends not loading. Failure shows the message and stays; success shows success, then goes to /teams |
| RemoveTeam.ConfirmFlow | components/team/mui/RemoveTeam.tsx:72-80 | confirming runs the removal and closes the dialog; cancel and close only close it |
| RemoveTeam.Remove | components/team/mui/RemoveTeam.tsx:24-42 | one DELETE of the team, loading off at the end, the dialog flag untouched, and a failure that neither invalidates nor navigates |
| Teams.NewTeamOpensDialog | components/team/mui/Teams.tsx:63-67 | a truthy `newTeam` opens the create dialog, and an absent or empty one changes nothing |
| Teams.RowsMirrorTeams | components/team/mui/Teams.tsx:150-156 | there is one row per team, in order, with the team's id, and the member column reads back as the member count. Absent teams give no rows |
| Teams.LeaveTrace | components/team/mui/Teams.tsx:69-84 | one PUT of /api/teams/{slug}/members is sent. Failure shows the message without invalidating; success shows success, then invalidates the team list |
| Teams.ConfirmGuard | components/team/mui/Teams.tsx:265-273 | confirming with no team selected sends nothing and only closes the dialog; after picking a team, confirming leaves exactly that team |
| Teams.CreateGuard | components/team/mui/Teams.tsx:163-222 | create is enabled exactly for a changed, non-empty name whose JavaScript length is within the team policy while nothing is in flight. Such a name has at most that many characters, and a name of characters beyond U+FFFF is held to half as many |
| Teams.CreateOutcome | components/team/mui/Teams.tsx:166-185 | an invalid name sends nothing, and failure keeps the dialog and values without navigating or invalidating. Success resets, invalidates teams, hides the dialog, shows success, then opens /teams/{newSlug}/settings |
| Teams.LeaveTeam | components/team/mui/Teams.tsx:69-84 | one PUT to the team's members, and a failure neither invalidates nor navigates |
| Teams.SubmitCreate | components/team/mui/Teams.tsx:163-185 | one POST of the name exactly when the schema accepts it. The screen changes only after a success, which hides the dialog and leaves a pristine form |
| TeamSettings.InitialFromTeam | components/team/mui/TeamSettings.tsx:24-28 | the initial values copy the team, a missing domain becomes '', and the fresh form cannot be saved |
| TeamSettings.ErrorsAreFieldErrors | components/team/mui/TeamSettings.tsx:31-37 | a successful parse gives no errors, and a failed parse gives exactly its field errors |
| TeamSettings.SaveGuard | components/team/mui/TeamSettings.tsx:58-119 | save is enabled exactly for changed, valid values while nothing is in flight. Without `team`/`update` access there is no save button, so nothing can be saved whatever the form holds |
| TeamSettings.SubmitTrace | components/team/mui/TeamSettings.tsx:38-55 | the PUT goes to the team's current slug even if the slug field was edited. Failure neither invalidates nor navigates; success shows success, invalidates teams, then goes to the returned slug's settings |
| TeamSettings.InvalidNotSent | components/team/mui/TeamSettings.tsx:31-55 | values with field errors are never sent |
| TeamSettings.Submit | components/team/mui/TeamSettings.tsx:31-55 | one PUT to the team's current slug exactly when the schema reports no field errors, and a failure neither invalidates nor navigates |
| TeamSettings.OnTeamChange | components/team/mui/TeamSettings.tsx:24-29 | a new `team` prop with different values resets the form to them, pristine; the same values leave the form untouched |
| TeamSettings.SavedTeamSettles | components/team/mui/TeamSettings.tsx:24-55 | premised on `useTeam` delivering the saved team as the new `team` prop (a slug change or a revalidation of that hook, not `mutateTeams`): then the form shows exactly the saved values and cannot be saved again until edited |
| UpdatePassword.PristineDisabled | components/account/mui/UpdatePassword.tsx:24-27 | empty fields never satisfy the schema, so the initial form cannot be submitted |
| UpdatePassword.SubmitGuard | components/account/mui/UpdatePassword.tsx:12-50 | submit is enabled exactly for changed values while nothing is in flight, with lengths counted as JavaScript does. The current password must be non-empty and within the maximum; the new one non-empty and between the minimum and maximum |
| UpdatePassword.SubmitTrace | components/account/mui/UpdatePassword.tsx:29-45 | one PUT of /api/password carries both fields. Failure keeps the values; success shows success, then resets to the empty form |
| UpdatePassword.ChangeClears | components/account/mui/UpdatePassword.tsx:23-45 | a successful change from the empty form leaves an empty, unsubmittable form again |
| UpdatePassword.Submit | components/account/mui/UpdatePassword.tsx:12-45 | one PUT of /api/password exactly for values the schema accepts. The form changes only after a success, which returns it to its pristine initial values |
| UpdateName.FollowsUser | components/account/mui/UpdateName.tsx:19-24 | the form's initial name is the user's. A new name resets the form to it (not savable); the same name keeps what is being typed |
| UpdateName.SaveGuard | components/account/mui/UpdateName.tsx:54-56 | save is enabled exactly for a changed, valid name while nothing is in flight |
| UpdateName.SubmitTrace | components/account/mui/UpdateName.tsx:32-51 | the PUT body holds only `name`. Failure shows the message and nothing else; success updates the session name, then replaces the route with /settings/account, then shows success |
| UpdateName.FailureKeepsSession | components/account/mui/UpdateName.tsx:39-43 | a failed save never updates the session |
| UpdateName.Submit | components/account/mui/UpdateName.tsx:32-51 | one PUT of /api/users exactly for valid values, and the session is updated only after a valid save succeeded |
| UpdateName.InvalidNotSent | components/account/mui/UpdateName.tsx:25-33 | values `updateAccountSchema` rejects are never sent, and nothing else happens |
| UpdateEmail.FollowsUser | components/account/mui/UpdateEmail.tsx:22-27 | the form's initial email is the user's, and a new email resets the form to a pristine state |
| UpdateEmail.FieldGate | components/account/mui/UpdateEmail.tsx:73-77 | when email change is not allowed, typing changes nothing and a pristine form stays unsavable; otherwise typing sets the value |
| UpdateEmail.SaveGuard | components/account/mui/UpdateEmail.tsx:52-54 | save is enabled exactly for a changed, valid email while nothing is in flight |
| UpdateEmail.SubmitTrace | components/account/mui/UpdateEmail.tsx:35-49 | the PUT body holds only `email`. Failure shows the message; success only shows success, with no invalidation and no navigation |
| UpdateEmail.Submit | components/account/mui/UpdateEmail.tsx:35-49 | one PUT of /api/users exactly for valid values, and the form never invalidates or navigates |
| UpdateEmail.InvalidNotSent | components/account/mui/UpdateEmail.tsx:28-36 | values `updateAccountSchema` rejects are never sent, and nothing else happens |
| InviteViaEmail.InitialForm | components/invitation/mui/InviteViaEmail.tsx:36-41 | the form starts with no address, the first role and `sentViaEmail` set. These values are not valid, and the fresh form cannot be sent |
| InviteViaEmail.SendGuard | components/invitation/mui/InviteViaEmail.tsx:26-33 | send is enabled exactly for changed values the schema accepts, even while a send is in flight. An invite with no address or with a role outside the available ids is never enabled |
| InviteViaEmail.SubmitTrace | components/invitation/mui/InviteViaEmail.tsx:43-60 | for values the schema accepts, one POST carries email, role and sentViaEmail. Failure keeps the dialog and values; success shows success, invalidates the e-mail invitation list, hides the dialog, then resets the form |
| InviteViaEmail.Rejections | components/invitation/mui/InviteViaEmail.tsx:26-34 | the schema rejects a missing address, one that is not e-mail shaped or is longer than the policy, and a role outside the available ids |
| InviteViaEmail.InvalidNotSent | components/invitation/mui/InviteViaEmail.tsx:26-60 | an invite the schema rejects is never posted and changes nothing |
| InviteViaEmail.Submit | components/invitation/mui/InviteViaEmail.tsx:36-60 | one POST to the team's invitations exactly for values the schema accepts. The screen changes only after a success, which hides the dialog and leaves a pristine form |

## Left out

- Networking: `fetch`, JSON parsing and the SWR cache. A response is the input `Outcome`, and `mutate` is an `Invalidate` effect. The key of a hook-bound `mutate()` is named by the hook and the team slug, because the hook's own key is defined outside these files.
- formik's internal bookkeeping (touched fields, validation timing). Validity is taken to be the schema's verdict on the current values, and `onSubmit` runs only for valid values.
- The schemas: the zod schemas (`updateTeamSchema`, `updateAccountSchema`, `createApiKeySchema`) and Yup's `.email()` are opaque predicates of the values they check (`updateTeamSchema` as a `Parse` result carrying its field errors), and the `maxLengthPolicies`/`passwordPolicies` numbers are parameters. Their definitions are not part of this model. The Yup rules written out in the screens (`required`, `min`, `max`, `oneOf`) are modelled, with lengths measured by `Strings.JsLength`.
- Sessions and permissions: `getSession`/`useSession` become an optional user id, and `canAccess` is an input predicate.
- UploadAvatar.TooBig: uses exact real division instead of IEEE doubles. Division by powers of two is exact for file sizes, so the test equals the integer comparison.
- The FileReader read of an accepted avatar is asynchronous browser I/O. Its result is the `dataUrl` parameter.
- The drag-highlight state of the avatar drop zone is presentation only.
- Dates and translations: date formatting is a `formatDate` parameter, and translation is a `t` parameter.
- Strings.UpperChar: upper-cases ASCII letters only. Unicode case mapping is not modelled.
- Strings.JsLength: a Dafny string holds Unicode scalar values, so a JavaScript string containing a lone surrogate cannot be expressed. Such strings are outside the model; for every other string the UTF-16 length is computed exactly.
- UsersApi: `recordMetric` is not modelled; it has no effect on the response.
- UsersApi: `getUserBySession` is assumed to return a user. The case where it returns nothing is not modelled.
- APIKeys: the second `return` after the component's first one (APIKeys.tsx:144-223) is unreachable, so it is not modelled.
- Members: the `cols` header array is not modelled; the rendered columns do not use it.
- NewAPIKey.CreateOutcome: does not model a response body carrying neither `data` nor `error`. The source would throw reading `data.apiKey` there.
- ConfirmationDialog: `open={visible}` is represented by each screen's own visibility flag, e.g. `APIKeys.Render` and `RemoveTeam.Render`, rather than by the dialog module.
- SelectContent: the select's own `handleChange` (setting the value to the chosen item) is not modelled, since clicking an item already navigates. The `addTopDivider` of the profile section is absent in the source and is read as false.
- TeamSettings.Submit: does not itself reset the form, and the model does not promise that a save resets it. The `team` prop comes from the page's `useTeam()` hook (pages/teams/[slug]/settings.tsx:19,42), while `mutateTeams()` only revalidates the `useTeams` list. A new prop arrives only when the route slug changes or `useTeam` revalidates, so a save that keeps the slug can leave the form dirty with save still enabled. `TeamSettings.OnTeamChange` models the `enableReinitialize` reset for a prop that does arrive, and `TeamSettings.SavedTeamSettles` takes that arrival as its premise. When the prop arrives depends on the router and the client cache, which are not modelled.
- Concurrency: double submits, state updates after unmount, and the leave-team confirm that does not await `leaveTeam` are out of scope. The model runs each handler to completion in sequence.
- Presentational and composition files: the side menu shell, avatars, titles, theme switching, the invite wrapper, skin selection, the page wrappers and the user hook.
