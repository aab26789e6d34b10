# kabsu.me core logic in Dafny

This project models the small amount of real logic in the kabsu.me social network. That logic sits between the UI components, the ORM calls and the identity provider. The project has one module per source file:

- `UserActions` (`user_actions.dfy`) holds the user server actions. Follow and unfollow work over two mirrored edge tables. `followers` holds (caller, target) rows. `followees` holds the same rows with their columns swapped. The bio update and the program/account-type update change a single user row. Each table is a multiset of rows, and the session is an optional caller id. Each action is one step. The three guarded actions return a `Result`; every error is thrown before the first write, so a `Failure` means the state is unchanged. `AddProgramToUserMetadata` has no error path and returns the new state.
- `PostForm` (`post_form.dfy`) is the create-post form. It holds the schema (trimmed content of 1 to 512 characters, a type that defaults to `following`), the submit-button state and the redirect after posting.
- `PostCard` (`post_card.dfy`) is the feed card. It shows content truncated to 512 characters plus "...", the card and author links, and a menu that only the owner sees.
- `Notifications` (`notifications.dfy`) is the notification popover. It holds the unread badge, the "mark all as read" button state, the link and message for each type, the unread dot, and the loading, empty and list renderings.
- `UpdatePost` (`update_post.dfy`) is the update-post dialog. It holds the looser update schema, the dirty check that guards the mutation, the button state and the reset on opening.
- `ShareSchema` (`share_schema.dfy`) decodes the share-card query parameters. It fills in defaults, checks `theme` and `ratio` against their enums, turns `verified` into a boolean and passes `privacy` through without checking it.
- `Schema` (`schema.dfy`) holds the three enumerations of the database schema. `Text` (`text.dfy`) holds ECMAScript `trim`, path splitting, and how a possibly missing username prints inside a link. `Zod` (`zod.dfy`) holds the validation issues. `Wrappers` (`wrappers.dfy`) holds `Option` and `Result`.

The model follows the code as written, including where it does less than one might expect:

- There is no self-follow check.
- A follow emits no notification.
- The two inserts of a follow, and the two deletes of an unfollow, are separate writes with no transaction.
- `followUser` looks for an existing edge only in `followers`.
- The comment-notification link contains a doubled slash (`/user//link`).
- The update-post schema neither trims nor caps its content.

## Model

| member | source | states |
|---|---|---|
| Schema.ParseAccountType | packages/db/schema/schema.ts:13 | accepts exactly the three account-type names, each mapped to the value of that name |
| Schema.ParsePostType | packages/db/schema/schema.ts:14-20 | accepts exactly the five post-type names, each mapped to the value of that name |
| Schema.ParseNotificationType | packages/db/schema/schema.ts:21-27 | accepts exactly the five notification-type names, each mapped to the value of that name |
| Schema.NamesRoundTrip | packages/db/schema/schema.ts:13-27 | parsing the name of any enum value gives that value back |
| Schema.PostTypesComplete | packages/db/schema/schema.ts:14-20 | the post-type list contains every value, lists "following" first and has no repeats |
| Schema.PostTypeNames | packages/db/schema/schema.ts:14-20 | the list holds exactly the strings the post-type parser accepts, in declaration order |
| UserActions.FollowUser | src/actions/user.ts:42-62 | fails with "User not found" without a session or with an empty session id, and with "Already following user" when `followers` already has (caller, target); otherwise it succeeds and adds one (caller, target) row to `followers` and one (target, caller) row to `followees`; no other count and no user row changes |
| UserActions.UnfollowUser | src/actions/user.ts:69-90 | fails only without a session or with an empty session id; on success no (caller, target) row is left in `followers`, no (target, caller) row in `followees`, and every other row count and the user table are unchanged |
| UserActions.EmptyIdRejected | src/actions/user.ts:36-72 | an empty session id is rejected with "User not found" by follow, unfollow and the bio update, as a missing one is |
| UserActions.InsertFollower | src/actions/user.ts:54-57 | the first write of a follow adds one row for the given pair to `followers` and changes no other count or table |
| UserActions.InsertFollowee | src/actions/user.ts:59-62 | the second write of a follow adds one row for the given pair to `followees` and changes no other count or table |
| UserActions.MirroredMembership | src/actions/user.ts:54-62 | in a mirrored state, (a, b) is in `followers` iff (b, a) is in `followees` |
| UserActions.FollowPreservesValid | src/actions/user.ts:54-62 | a successful follow keeps the tables mirrored and without duplicate pairs |
| UserActions.UnfollowPreservesValid | src/actions/user.ts:74-90 | a successful unfollow keeps the tables mirrored and without duplicate pairs |
| UserActions.FollowIntermediateBreaksMirror | src/actions/user.ts:54-62 | after the first insert and before the second, the tables are not mirrored |
| UserActions.FollowUnfollowRoundTrip | src/actions/user.ts:54-90 | whenever a follow succeeds and `followees` has no (target, caller) row, a follow and then an unfollow restore both tables exactly, mirrored or not |
| UserActions.MirroredFollowUnfollowRoundTrip | src/actions/user.ts:47-90 | from a mirrored state every successful follow is undone exactly by an unfollow |
| UserActions.FollowUnfollowClearsStaleFollowee | src/actions/user.ts:54-90 | with a stale (target, caller) row in `followees`, follow then unfollow succeeds but deletes that row too, leaving `followers` and the users as before |
| UserActions.UnfollowIdempotent | src/actions/user.ts:74-90 | after a successful unfollow, a repeated unfollow succeeds and changes nothing |
| UserActions.FollowDuplicatesFolloweeWhenUnmirrored | src/actions/user.ts:47-62 | the duplicate check reads only `followers`, so from an unmirrored state a follow by a non-empty caller id leaves two copies of a `followees` row; an empty id is rejected |
| UserActions.UpdateBio | src/actions/user.ts:27-38 | succeeds iff there is a non-empty session id and it is the `user_id` in the request, else fails with "User not found"; on success only that user's bio changes, to the new text |
| UserActions.AddProgramToUserMetadata | src/actions/user.ts:9-25 | with no authentication check, sets the program id and account type of the named user; every other field and user is unchanged |
| Text.Trim | src/components/post-form.tsx:43 | the trimmed string has no whitespace at either end and is no longer than the input |
| Text.TrimOfPadded | src/components/post-form.tsx:43 | whitespace on both sides of content whose ends are not whitespace trims away to exactly that content |
| Text.TrimIdempotent | src/components/post-form.tsx:43 | trimming twice is the same as trimming once |
| Text.TrimEmptyIffWhitespace | src/components/post-form.tsx:43-44 | a string trims to empty iff it is all whitespace |
| Text.TrimDecomposes | src/components/post-form.tsx:43 | trimming removes only a whitespace prefix and a whitespace suffix |
| PostForm.ContentIssues | src/components/post-form.tsx:41-47 | the content reports no issue iff its trimmed length is in [1, 512], and at most one issue otherwise |
| PostForm.ParseType | src/components/post-form.tsx:48 | a missing type becomes "following"; a supplied name is accepted iff it names a post type |
| PostForm.ValidatePost | src/components/post-form.tsx:40-49 | accepts iff the trimmed content has 1 to 512 characters and the type is missing or valid; the accepted content is the trimmed input |
| PostForm.WhitespaceOnlyRejected | src/components/post-form.tsx:43-44 | content that is all whitespace is rejected, first with "Post cannot be empty." |
| PostForm.TooLongRejected | src/components/post-form.tsx:45-47 | content whose trimmed form is longer than 512 is rejected as too long |
| PostForm.PaddingIsDropped | src/components/post-form.tsx:41-47 | the limit applies after trimming: padded content is accepted as its core even when the raw input is longer than 512 |
| PostForm.ValidateIdempotent | src/components/post-form.tsx:40-49 | validating an accepted post again gives the same post |
| PostForm.SubmitDisabled | src/components/post-form.tsx:202-206 | the button is disabled iff a submit is running, the trimmed content is not 1 to 512 characters long, or a supplied type is not a post type |
| PostForm.SubmitEnabledIffAccepted | src/components/post-form.tsx:204-206 | with no submit running, the button is enabled exactly for the values the schema accepts |
| PostForm.InitialFormDisabled | src/components/post-form.tsx:52-58 | the form's initial values cannot be submitted |
| PostForm.RedirectPath | src/components/post-form.tsx:61-66 | the path is "/" iff the type is "following", and starts with "/?tab=" otherwise |
| PostForm.RedirectSelectsPostedTab | src/components/post-form.tsx:62-66 | the redirect path selects the feed tab of the type just posted |
| PostCard.DisplayContent | src/components/post.tsx:176-180 | content of at most 512 characters is shown as it is; longer content is shown as 515 characters ending in "..."; the display never exceeds 515 characters and always starts with the first min(length, 512) characters |
| PostCard.DisplayUnchangedIff | src/components/post.tsx:177-179 | the display equals the content iff the content has at most 512 characters, or is exactly 512 characters followed by "..." |
| PostCard.DisplayIdempotent | src/components/post.tsx:177-179 | truncating displayed text again leaves it unchanged |
| PostCard.AuthorHref | src/components/post.tsx:63 | the author link is "/" followed by the username, or by "null" when the user has none |
| PostCard.PostHref | src/components/post.tsx:57 | the card link extends the author link (with "null" for a missing username) with "/" and ends with the post id |
| PostCard.HrefSegments | src/components/post.tsx:55-63 | for slash-free ids the author link has the one segment username ("null" when missing), and the card link has the segments username and post id |
| PostCard.RenderPost | src/components/post.tsx:54-179 | the card's menu contains Delete iff the post is the viewer's own; the links and the displayed text are those above; the handle is "@" and the username, or just "@" when the user has none |
| PostCard.NullUsernameCard | src/components/post.tsx:57-137 | a post whose author has no username links to "/null" and "/null/" plus the post id, and shows the handle "@" |
| Notifications.Unread | src/components/notifications.tsx:51-53 | the filtered list holds exactly the unread notifications, and is empty iff every notification is read |
| Notifications.UnreadAppend | src/components/notifications.tsx:51-53 | filtering the unread notifications distributes over concatenation |
| Notifications.UnreadIndicesCount | src/components/notifications.tsx:51-53 | the number of unread notifications equals the number of positions holding an unread one |
| Notifications.BadgeCount | src/components/notifications.tsx:50-54 | the badge is 0 without data, never exceeds the list length, and is 0 iff nothing is unread |
| Notifications.MarkAllDisabled | src/components/notifications.tsx:70-78 | "mark all as read" is enabled iff neither the mutation nor the query is loading, data is present, and some notification is unread |
| Notifications.MarkAllEmptyTestRedundant | src/components/notifications.tsx:70-78 | the empty-list condition adds nothing to the no-unread condition |
| Notifications.Href | src/components/notifications.tsx:110-121 | follow links to "/u", like to "/u/link", comment to "/u//link", and only the mention types to ""; a sender without a username gives "null" for u |
| Notifications.HrefSegments | src/components/notifications.tsx:110-121 | for slash-free names and links, split into path segments, a comment link has an empty segment between user and post; a missing username is the segment "null" |
| Notifications.Message | src/components/notifications.tsx:140-151 | the message for follow, like and comment, and "" exactly for the mention types |
| Notifications.HrefIffMessage | src/components/notifications.tsx:110-151 | a notification links somewhere exactly when it has a message |
| Notifications.RenderRow | src/components/notifications.tsx:107-160 | a row shows the unread dot iff the notification is unread, and carries its link, the avatar link "/u" and the "@u message" text; without a username the avatar link is "/null" and the text is "@ message" |
| Notifications.NullSenderRow | src/components/notifications.tsx:113-139 | for a sender without a username the avatar link is "/null", the links are "/null", "/null/link" and "/null//link", and a follow reads "@ started following you" |
| Notifications.RenderPanel | src/components/notifications.tsx:91-107 | loading or absent data shows 11 skeleton rows, an empty list shows "No notifications", and loaded non-empty data always shows one row per notification, in order |
| Notifications.DotsMatchBadge | src/components/notifications.tsx:157-159 | the number of unread dots shown equals the badge count |
| UpdatePost.ValidateUpdate | apps/www/src/components/update-post.tsx:31-34 | accepts iff the post id and the content are non-empty, returns the values untouched, and reports empty content as "Post cannot be empty." |
| UpdatePost.UpdateLooserThanCreate | apps/www/src/components/update-post.tsx:31-34 | whitespace-only content and content longer than 512 pass the update schema; the create schema rejects whitespace-only content |
| UpdatePost.NewForm | apps/www/src/components/update-post.tsx:46-52 | a new form holds the post's id and content and is not dirty |
| UpdatePost.OnOpen | apps/www/src/components/update-post.tsx:54-61 | opening resets the form to the post's current values, so it is not dirty; while closed nothing changes |
| UpdatePost.IsDirty | apps/www/src/components/update-post.tsx:64 | the form is dirty iff its post id or its content differs from the values it was last reset to |
| UpdatePost.SubmitDisabled | apps/www/src/components/update-post.tsx:99-104 | the button is enabled iff no submit is running and the values differ from the defaults |
| UpdatePost.Submit | apps/www/src/components/update-post.tsx:63-68 | invalid values stop at validation; a clean form returns without the mutation; a dirty valid form sends its values, and the dialog closes iff the mutation completes |
| UpdatePost.OpenedFormSendsNothing | apps/www/src/components/update-post.tsx:54-68 | right after opening, the button is disabled and a submit never calls the mutation |
| UpdatePost.EnabledValidSubmitSends | apps/www/src/components/update-post.tsx:63-68 | with the button enabled and valid values, a submit sends the edited values |
| ShareSchema.DecodeVerified | apps/www/src/schema.ts:11-14 | `verified` is true iff it is missing or exactly "true" |
| ShareSchema.DecodeTheme | apps/www/src/schema.ts:6 | a theme is accepted iff it is missing, "light" or "dark"; a missing theme is light |
| ShareSchema.DecodeRatio | apps/www/src/schema.ts:7 | a ratio is accepted iff it is missing, "square", "landscape" or "portrait"; a missing ratio is square |
| ShareSchema.DecodeShareCard | apps/www/src/schema.ts:5-28 | decoding fails iff theme or ratio is invalid, with one or two issues; on success theme and ratio are the decoded values, `verified` is decoded as above, and each of the ten string fields is the supplied value or its default |
| ShareSchema.EmptyParamsGiveDefault | apps/www/src/schema.ts:5-28 | no parameters decode to the card of all defaults |
| ShareSchema.EncodeDecodeRoundTrip | apps/www/src/schema.ts:5-28 | every card written out as parameters decodes back to itself |
| ShareSchema.VerifiedIsCaseSensitive | apps/www/src/schema.ts:11-14 | "True" and "1" decode to false and "true" decodes to true |
| ShareSchema.PrivacyUnchecked | apps/www/src/schema.ts:23-25 | any supplied privacy string is accepted and passed through unchanged |

## Left out

- Database, ORM and cache calls (`db`, `revalidatePath`) are replaced by the `Db` value, and the Clerk session by an optional caller id. Row ids (`nanoid`) and `created_at` timestamps of the edge rows are not modelled.
- Concurrency: each action is one step. The gap between the two writes of a follow is stated only through `UserActions.FollowIntermediateBreaksMirror`.
- `isUsernameExists` (src/actions/user.ts:107-115) is a remote identity-provider call. `getProgramForAuth` (src/actions/user.ts:97-105) only reads two tables.
- The server actions `getAllNotifications`, `markNotificationAsRead` and `markAllNotificationAsRead` are not part of this model. Only their use in the popover is modelled: the query state, and the "mark all" button's enabled state. The query refetch after a mutation is not modelled either.
- The create form's Escape key and focus effects, and its `form.reset()` after a submit, are not modelled. Its submit is modelled only through the button state and the redirect path.
- Layout, styling, images, tooltips, the `toUpperCase` campus and program badges (Unicode case mapping), `moment` date formatting, and the textarea's `maxLength` browser attribute are not modelled.
- The tRPC session guard (packages/api/src/trpc.ts), environment configuration (apps/www/src/env.ts) and page layouts are not modelled.
- Self-follow rejection, notifications on follow or like, like toggling and soft-delete filtering are left out. None of them appears in the code modelled here.
- PostForm.ValidatePost: lengths count Unicode code points, while JavaScript's `length` counts UTF-16 code units. Content with characters outside the Basic Multilingual Plane can therefore pass here yet fail the 512 limit in the browser.
- PostCard.DisplayContent: lengths count code points, so the model never splits a surrogate pair, which `slice(0, 512)` can do.
- UpdatePost.ValidateUpdate: the same code-point counting applies to the `min(1)` checks.
- ShareSchema.DecodeShareCard: each query parameter is a single string. A repeated parameter arrives as an array and is not modelled. Enum issues carry their options and received value instead of zod's rendered message text.
- PostForm.ValidatePost: the content field is always a string. Zod's "Expected string" issue for other JavaScript values is not modelled, since the form only produces strings.
