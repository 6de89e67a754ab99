# LOSL-C community platform: a verified model of the core

The model covers the server side of the LOSL-C website. The Next.js half has
server actions over a Postgres schema. They manage:

- the blog: posts, tags, comments and views;
- community programs and projects, with their leads and members;
- events, with their registrations;
- community roles, contributor profiles;
- system settings, notifications and audit logs;
- users' roles.

The gates in front of those actions rest on the role hierarchy. Around them the
model covers:

- the auth hook that promotes authorised e-mail addresses;
- the environment lookup;
- the admin breadcrumb and sidebar;
- the two admin create forms.

The Laravel half contributes the public blog controller, with its pagination,
post page, comment tree and comment posting, and the subscriber policy.

Each table is a `map` from its key to a row datatype, or a `set` for a table
whose primary key is the whole row. The tables sit in one class per action
module (`BlogStore`, `ProgramStore`, `EventStore`, `GovernanceStore`,
`SettingsStore`, `UserTable`, `BlogSite`). Every handler is a method of that
class; the state-changing ones carry `modifies this`, the read-only ones change
nothing.

Each store's `Valid()` is the conjunction of the schema's constraints, written
as pure predicates in the `*_schema.dfy` modules:

- primary keys and `serial` counters;
- `unique` columns;
- foreign keys inside the store;
- `ON DELETE CASCADE` and `SET NULL` effects.

Every handler keeps `Valid()`. It states its answer (a `ServerResponse`) and
its whole new state in terms of the old one, including the gate that refuses
it and the error paths.

The request context is explicit:

- The signed-in user is an `Option<User>` parameter.
- The clock is a `now: nat` parameter.
- `revalidatePath` appends to a ghost log, `revalidated`.
- Queries with `orderBy: desc(column)` return a `Listing`: exactly the rows
  the filter admits, each once, in non-increasing order of that column.
- Queries without an order promise only the multiset of rows.

## Model

| member | source | states |
|---|---|---|
| `Permissions.RankOfName` | lib/server/permissions.ts:8-15 | a role string has a rank exactly when it is one of "user", "admin", "superadmin", and then it is that role's rank |
| `Permissions.RanksStrictlyOrdered` | lib/server/permissions.ts:8-12 | user < admin < superadmin, and distinct roles have distinct ranks |
| `Permissions.EvaluateRoleIff` | lib/server/permissions.ts:3-18 | `evaluateRole` holds exactly when the user's role is a known role whose rank is at least the minimum's |
| `Permissions.EvaluateRoleReflexive` | lib/server/permissions.ts:14-17 | every role passes its own minimum |
| `Permissions.EvaluateRoleMonotone` | lib/server/permissions.ts:14-17 | passing a minimum implies passing every lower minimum |
| `Permissions.UnknownRoleFailsEverything` | lib/server/permissions.ts:15 | an unknown role string (undefined rank) fails every check, even "user" |
| `Permissions.SuperAdminPassesEverything` | lib/server/permissions.ts:11 | "superadmin" passes every minimum |
| `Permissions.ExactAdminStricter` | app/actions/community/programs.ts:195 | the strict `role !== "admin"` gate admits a subset of the hierarchy gate, and superadmin is exactly the difference |
| `Permissions.OwnerOrExactAdminCases` | app/actions/social/blog.ts:123-128 | the owner always passes; anyone else passes iff the role is exactly "admin" |
| `Text.LowerChar` | lib/auth.ts:68 | lower-casing leaves no ASCII capital, shifts capitals by 32, and leaves every other character alone |
| `Text.LowerIdempotent` | lib/auth.ts:68-69 | lower-casing twice is lower-casing once |
| `Text.JsLength` | app/admin/programs/create/create-program-client.tsx:25-27 | a string's UTF-16 length lies between its character count and twice that |
| `Text.JsLengthBmp` | app/admin/blog/create/create-blog-client.tsx:25-27 | inside the Basic Multilingual Plane the UTF-16 length is the character count |
| `Text.Split` | lib/auth.ts:66-67 | `split` on one character never answers an empty list |
| `Text.JoinSplit` | lib/auth.ts:67 | joining the pieces of a split with the separator gives the string back |
| `Text.SplitJoin` | app/admin/_components/admin-header.tsx:14 | splitting a join of separator-free pieces gives the pieces back |
| `Ordering.SelectDesc` | app/actions/social/blog.ts:78-85 | a `findMany` with `orderBy: desc(column)` answers exactly the admitted rows, each once, with the column never increasing |
| `Ordering.ListingMembers` | app/actions/community/programs.ts:53-55 | a listing holds a row iff the table holds it and the filter admits it |
| `BlogSchema.PostStatusLabelsExact` | core/db/schemas/social/blog.ts:14-19 | the four labels name the four statuses, one to one |
| `BlogSchema.PostRow` | core/db/schemas/social/blog.ts:34-55 | an inserted post gets its serial id, the given author, status draft unless one is given, and `now` for both timestamps |
| `BlogSchema.CommentRow` | core/db/schemas/social/blog.ts:79-96 | an inserted comment is approved by default and keeps its post, user and parent as given |
| `BlogSchema.DetachCategoryKeepsPostsOk` | core/db/schemas/social/blog.ts:39-41 | after the detach every post constraint holds without the category |
| `BlogSchema.DeletePostCascadeOk` | core/db/schemas/social/blog.ts:66-109 | after the cascade no tag link, comment or view refers to the deleted post |
| `BlogSchema.DeletePostKeepsPostsOk` | core/db/schemas/social/blog.ts:34-55 | removing a post keeps the key, slug and category constraints |
| `Slugs.TagSlugClean` | app/actions/social/blog.ts:54 | a generated tag slug contains no whitespace and no ASCII capital |
| `Slugs.SlugFromClean` | app/actions/social/blog.ts:54 | the same, for a slug computed from any point of the name |
| `Slugs.TagSlugOfWord` | app/actions/social/blog.ts:54 | a name without whitespace is only lower-cased |
| `Slugs.SlugFromWord` | app/actions/social/blog.ts:54 | the same, from any point of the name |
| `Slugs.TagSlugIdempotent` | app/actions/social/blog.ts:54 | slugging a slug changes nothing |
| `Slugs.SlugFromAppend` | app/actions/social/blog.ts:54 | slugging works piece by piece, the second piece continuing the first's whitespace run |
| `Slugs.SlugFromSpaces` | app/actions/social/blog.ts:54 | a whitespace run gives one "-", or nothing when it continues a run |
| `Slugs.TagSlugRun` | app/actions/social/blog.ts:54 | a whitespace run between two words becomes exactly one "-" (`/\s+/g`) |
| `BlogActions.BlogStore.constructor` | core/db/schemas/social/blog.ts:21-109 | an empty store satisfies every constraint |
| `BlogActions.BlogStore.FindOrCreateTag` | app/actions/social/blog.ts:44-57 | an existing tag of that name is reused unchanged; otherwise one tag is added with the slug of its name, exactly when no tag has that slug yet |
| `BlogActions.BlogStore.InsertLink` | app/actions/social/blog.ts:59-61 | one post-tag link is added, or refused as a duplicate primary key |
| `BlogActions.BlogStore.InsertPost` | app/actions/social/blog.ts:36-39 | one post row is added with the caller as author |
| `BlogActions.BlogStore.LinkTag` | app/actions/social/blog.ts:42-62 | one pass of the tag loop: find or create the tag, then link it; a pass that gets through extends the loop state by its name, and for a post without links it gets through whenever the extended list is still addable; a failed pass leaves the links as they were |
| `BlogActions.BlogStore.LinkTags` | app/actions/social/blog.ts:41-63 | the loop links the post to exactly the tags named, creating the missing ones, and an empty list touches nothing; whatever the outcome, the links added are links of this post to tags of the named names; for a post without links it succeeds exactly when the names are addable (no name twice, every new name's slug free of the existing tags and of the other new names) |
| `BlogActions.AddableStep` | app/actions/social/blog.ts:42-62 | a pass that got through keeps the names seen so far addable |
| `BlogActions.AddableNext` | app/actions/social/blog.ts:42-62 | when the whole list is addable, each pass meets a name new to the loop that is a tag already or has a free slug |
| `BlogActions.TagLoopStep` | app/actions/social/blog.ts:42-62 | one pass that got through, in terms of what its two inserts promise, carries the loop state one name further |
| `BlogActions.BlogStore.CreateBlogPost` | app/actions/social/blog.ts:27-70 | a guest is refused; the post row (caller as author) is stored exactly once exactly when the slug is free and the category exists, and it stays when a later tag insert fails; otherwise nothing is stored and a taken slug gives the duplicate-key error; once the post is in, the call succeeds exactly when the tag names are addable (an empty list always is); success links the named tags and revalidates "/blog"; on any outcome every link added belongs to the new post and to a tag of one of the names |
| `BlogActions.BlogStore.GetBlogPosts` | app/actions/social/blog.ts:72-90 | the posts the status filter admits, newest first as a `Listing`; an omitted filter takes the default "published" and lists exactly the published posts |
| `BlogActions.BlogStore.GetBlogPostBySlug` | app/actions/social/blog.ts:92-108 | the post with that slug; "Post not found" exactly when there is none |
| `BlogActions.BlogStore.UpdateBlogPost` | app/actions/social/blog.ts:110-141 | only the author or an exact "admin" may update; the row becomes the patched row; both paths are revalidated; failures change nothing |
| `BlogActions.BlogStore.RemovePost` | core/db/schemas/social/blog.ts:69-102 | the post goes, with its tag links, comments and views |
| `BlogActions.BlogStore.DeleteBlogPost` | app/actions/social/blog.ts:143-167 | only the author or an exact "admin" may delete; success removes the post and its dependants |
| `BlogActions.BlogStore.CreateComment` | app/actions/social/blog.ts:171-194 | any signed-in user comments on an existing post; the parent is stored unchecked; "/blog/<postId>" is revalidated |
| `BlogActions.BlogStore.GetComments` | app/actions/social/blog.ts:196-211 | the post's comments, newest first |
| `BlogActions.BlogStore.IncrementView` | app/actions/social/blog.ts:215-227 | one view row is added with the caller's id or none; a failed insert changes nothing and reports nothing |
| `BlogActions.BlogStore.DeleteCategory` | core/db/schemas/social/blog.ts:39-41 | deleting a category keeps its posts with their category cleared |
| `BlogActions.ListingAllHasEveryPost` | app/actions/social/blog.ts:76-77 | "all" lists every post |
| `BlogActions.ListingStatusExact` | app/actions/social/blog.ts:76-77 | "published" or "draft" lists exactly the posts with that status |
| `BlogActions.PatchPostKeepsIdentity` | app/actions/social/blog.ts:132 | an update keeps the id and stamps `updatedAt`; the creation time stays unless the patch sets it, and then takes the patch's value |
| `BlogActions.PatchPostColumns` | app/actions/social/blog.ts:132 | title, slug and status take the patch's value where given and keep their own elsewhere; an empty patch only stamps `updatedAt` |
| `ProgramsSchema.ProgramStatusLabelsExact` | core/db/schemas/community/programs.ts:13-26 | the five labels name the five statuses, one to one (programs and projects share them) |
| `ProgramsSchema.RowStatusDefaults` | core/db/schemas/community/programs.ts:33 | an insert without a status gets draft; one with a status keeps it |
| `ProgramsSchema.DeleteProgramCascadeOk` | core/db/schemas/community/programs.ts:44-110 | deleting a program, its leads, history, projects and their members leaves every constraint true |
| `ProgramsSchema.DeleteProjectCascadeOk` | core/db/schemas/community/programs.ts:78-93 | deleting a project and its members leaves every constraint true |
| `ProgramsActions.PatchKeepsIdentity` | app/actions/community/programs.ts:88 | an update keeps the id and stamps `updatedAt`; the creation time stays unless the patch sets it; a program keeps its slug and a project its program when the patch omits them |
| `ProgramsActions.ProjectFilterCases` | app/actions/community/programs.ts:139-141 | no program id, or 0, lists every project; any other id only that program's |
| `ProgramsActions.ProgramStore.constructor` | core/db/schemas/community/programs.ts:28-110 | an empty store satisfies every constraint |
| `ProgramsActions.ProgramStore.CreateProgram` | app/actions/community/programs.ts:29-47 | admins and superadmins only; succeeds iff the slug is free; stores the row and revalidates "/programs" |
| `ProgramsActions.ProgramStore.GetPrograms` | app/actions/community/programs.ts:49-60 | every program, newest first |
| `ProgramsActions.ProgramStore.GetProgramBySlug` | app/actions/community/programs.ts:62-74 | the program with that slug; "Program not found" exactly when there is none |
| `ProgramsActions.ProgramStore.UpdateProgram` | app/actions/community/programs.ts:76-96 | admins only; a missing id succeeds with no row; otherwise the row becomes the patched row |
| `ProgramsActions.ProgramStore.RemoveProgram` | core/db/schemas/community/programs.ts:47-101 | the program goes with its leads, history, projects and their members |
| `ProgramsActions.ProgramStore.DeleteProgram` | app/actions/community/programs.ts:98-113 | admins only; success removes the program and its dependants |
| `ProgramsActions.ProgramStore.CreateProject` | app/actions/community/programs.ts:117-133 | any signed-in user; succeeds iff the slug is free and the program exists; revalidates "/projects" |
| `ProgramsActions.ProgramStore.GetProjects` | app/actions/community/programs.ts:135-150 | the filtered projects, newest first |
| `ProgramsActions.ProgramStore.UpdateProject` | app/actions/community/programs.ts:152-170 | any signed-in user may patch any project; a missing id succeeds with no row |
| `ProgramsActions.ProgramStore.DeleteProject` | app/actions/community/programs.ts:172-185 | any signed-in user may delete any project, with its members |
| `ProgramsActions.ProgramStore.AddProgramLead` | app/actions/community/programs.ts:189-205 | exact "admin" only; succeeds iff the program exists and the pair is new |
| `ProgramsActions.ProgramStore.RemoveProgramLead` | app/actions/community/programs.ts:207-230 | exact "admin" only; removes that one pair, if present |
| `ProgramsActions.ProgramStore.JoinProject` | app/actions/community/programs.ts:232-248 | the caller joins an existing project once, with role "contributor" unless one is given; joining twice is refused |
| `ProgramsActions.ProgramStore.LeaveProject` | app/actions/community/programs.ts:250-270 | the caller's own membership of the project goes, if present; nobody else's |
| `EventsSchema.StatusDefaults` | core/db/schemas/community/events.ts:112-153 | registrations and invitations default to "pending", and registration-status labels are one to one |
| `EventsSchema.EventDefaults` | core/db/schemas/community/events.ts:28-41 | an inserted event gets each column's default when none is given, and the given creator |
| `EventsSchema.AtMostOneRegistration` | core/db/schemas/community/events.ts:157-161 | the unique index allows at most one registration per (event, user) |
| `EventsSchema.DeleteEventCascadeOk` | core/db/schemas/community/events.ts:46-132 | after the cascade every child still refers to an existing event |
| `EventsSchema.DeleteEventRegistrationsOk` | core/db/schemas/community/events.ts:146 | the same for registrations |
| `EventsSchema.ChildrenOkGrow` | core/db/schemas/community/events.ts:17-44 | adding or keeping events never breaks a child's reference |
| `EventsSchema.TagTextMayRepeat` | core/db/schemas/community/events.ts:96-99 | no constraint stops two event tags from having the same text |
| `EventsSchema.CancelFor` | app/actions/community/events.ts:153-161 | the update touches no key |
| `EventsSchema.CancelForOk` | app/actions/community/events.ts:153-161 | cancelling keeps the constraints; exactly the caller's rows for that event become cancelled; at most one row changes |
| `EventsActions.PatchEventKeepsIdentity` | app/actions/community/events.ts:84-88 | an update keeps the id and stamps `updatedAt`; creator and creation time stay unless the patch sets them, and then take its values; slug and `published` stay when omitted; an empty patch only stamps `updatedAt` |
| `EventsActions.EventFilterCases` | app/actions/community/events.ts:44-46 | the published-only filter admits exactly the published events; otherwise all |
| `EventsActions.RegistrationRow` | app/actions/community/events.ts:134-138 | a new registration is "confirmed", not the column's default "pending" |
| `EventsActions.EventStore.constructor` | core/db/schemas/community/events.ts:17-162 | an empty store satisfies every constraint |
| `EventsActions.EventStore.CreateEvent` | app/actions/community/events.ts:20-38 | admins only; succeeds iff the slug is free; records the caller as creator; revalidates "/events" |
| `EventsActions.EventStore.GetEvents` | app/actions/community/events.ts:40-55 | the published events, or all of them when `publishedOnly` is false, latest date first as a `Listing`; an omitted argument takes the default `true` and lists exactly the published events |
| `EventsActions.EventStore.GetEventBySlug` | app/actions/community/events.ts:57-74 | the event with that slug and exactly its sessions, speakers and sponsors; "Event not found" exactly when there is none |
| `EventsActions.EventStore.UpdateEvent` | app/actions/community/events.ts:76-96 | admins only; a missing id succeeds with no row; otherwise the row becomes the patched row |
| `EventsActions.EventStore.RemoveEvent` | core/db/schemas/community/events.ts:46-162 | the event goes with every dependent row |
| `EventsActions.EventStore.DeleteEvent` | app/actions/community/events.ts:98-111 | admins only; success removes the event and its dependants |
| `EventsActions.EventStore.RegisterForEvent` | app/actions/community/events.ts:115-144 | "Already registered" when any registration for the pair exists (cancelled too); else one confirmed row for an existing event, and "/events/<id>" revalidated |
| `EventsActions.EventStore.CancelRegistration` | app/actions/community/events.ts:146-167 | the caller's registration for the event becomes cancelled; every other row stays; success even when none matched |
| `EventsActions.RegisterTwiceRefused` | app/actions/community/events.ts:123-132 | after a registration, the same pair is found as registered |
| `EventsActions.CancelledStillRegistered` | app/actions/community/events.ts:123-132 | a cancelled registration still counts as existing, so that user cannot register again |
| `GovernanceSchema.GovernanceDefaults` | core/db/schemas/community/governance.ts:17-80 | a role is not a system role unless stated; a profile starts with 0 contributions and the given owner |
| `GovernanceSchema.AtMostOneProfile` | core/db/schemas/community/governance.ts:71-74 | the unique `userId` allows at most one profile per user |
| `GovernanceSchema.DeleteRoleCascadeOk` | core/db/schemas/community/governance.ts:35-65 | deleting a role, its links and assignments keeps every constraint |
| `GovernanceSchema.RolesGrowOk` | core/db/schemas/community/governance.ts:35-65 | adding roles never breaks a link or an assignment |
| `GovernanceSchema.UserDeleteOk` | core/db/schemas/community/governance.ts:48-88 | after a user is deleted no assignment or profile names them, other rows stay, and every constraint holds |
| `GovernanceActions.PatchRole` | app/actions/community/governance.ts:66-70 | an update keeps the id, stamps `updatedAt`, takes the given columns (the creation time included) and keeps the rest |
| `GovernanceActions.ProfileUpdateMovesProfile` | app/actions/community/governance.ts:175-180 | with the update as written, alice's patch naming bob leaves alice without a profile |
| `GovernanceActions.PatchProfile` | app/actions/community/governance.ts:175-186 | the corrected update: as written, except that the owner stays the caller |
| `GovernanceActions.GovernanceStore.constructor` | core/db/schemas/community/governance.ts:13-88 | an empty store satisfies every constraint |
| `GovernanceActions.GovernanceStore.CreateRole` | app/actions/community/governance.ts:29-44 | admins only; succeeds iff the name is free; revalidates "/admin/roles" |
| `GovernanceActions.GovernanceStore.GetRoles` | app/actions/community/governance.ts:46-53 | every role, each once, in no promised order |
| `GovernanceActions.GovernanceStore.UpdateRole` | app/actions/community/governance.ts:55-75 | admins only; a missing id succeeds with no row; otherwise the patched row |
| `GovernanceActions.GovernanceStore.DeleteRole` | app/actions/community/governance.ts:77-90 | admins only; the role goes with its links and assignments |
| `GovernanceActions.GovernanceStore.AssignRoleToUser` | app/actions/community/governance.ts:94-114 | admins only; succeeds iff the role exists and the pair is new; records the caller as assigner; revalidates "/users/<id>" |
| `GovernanceActions.GovernanceStore.RemoveRoleFromUser` | app/actions/community/governance.ts:116-139 | exact "admin" only; removes that one assignment, if present |
| `GovernanceActions.GovernanceStore.GetContributorProfile` | app/actions/community/governance.ts:143-156 | the user's one profile, or none exactly when they have none |
| `GovernanceActions.GovernanceStore.UpdateContributorProfile` | app/actions/community/governance.ts:158-193 | updates the caller's profile or inserts one owned by them; afterwards they own exactly that profile and no other user's profile changed |
| `GovernanceActions.OnlyProfile` | core/db/schemas/community/governance.ts:71-74 | a stored profile is its owner's only one |
| `GovernanceActions.NoProfile` | app/actions/community/governance.ts:168-172 | a user with no row has no profile |
| `GovernanceActions.ProfileReplaced` | app/actions/community/governance.ts:175-186 | after the write the owner holds exactly the written profile |
| `SettingsSchema.NotificationTypeNamesDistinct` | core/db/schemas/platform/settings.ts:26-30 | the three notification-type labels are distinct |
| `SettingsSchema.NotificationRow` | core/db/schemas/platform/settings.ts:54 | a new notification is unread and belongs to its user |
| `SettingsSchema.DefaultPreferenceRow` | core/db/schemas/platform/settings.ts:38 | a new preference is enabled by default |
| `SettingsSchema.PreferencesMayRepeat` | core/db/schemas/platform/settings.ts:32-43 | no constraint stops two preferences for the same user, type and category |
| `SettingsSchema.UserDeleteOk` | core/db/schemas/platform/settings.ts:13-71 | after a user is deleted nothing names them and every constraint holds |
| `SettingsSchema.RelationsRedeclared` | core/db/schemas/platform/settings.ts:88-160 | as written, the relation declarations repeat three exported names, each with the same relation as its first declaration |
| `SettingsSchema.RelationsDeclaredOnce` | core/db/schemas/platform/settings.ts:88-121 | with the repeated block dropped every name is declared once, no relation of the written file is lost, and each table has one relation |
| `SettingsActions.KeptDescription` | app/actions/platform/settings.ts:59 | an absent or empty description keeps the stored one |
| `SettingsActions.MarkRead` | app/actions/platform/settings.ts:106-110 | only a notification with that id and owner becomes read; every other row stays |
| `SettingsActions.MarkReadIdempotent` | app/actions/platform/settings.ts:106-110 | marking read twice equals marking once |
| `SettingsActions.AuditRow` | app/actions/platform/settings.ts:182-193 | the audit row names the caller's id exactly when there is a caller, and no address |
| `SettingsActions.SettingsStore.constructor` | core/db/schemas/platform/settings.ts:13-71 | an empty store satisfies every constraint |
| `SettingsActions.SettingsStore.GetSystemSetting` | app/actions/platform/settings.ts:26-37 | the value under the key, or none exactly when no row has it |
| `SettingsActions.SettingsStore.UpdateSystemSetting` | app/actions/platform/settings.ts:39-78 | admins only; afterwards exactly one row holds the key, with the new value and the caller as `updatedBy`; revalidates "/admin/settings" |
| `SettingsActions.SettingsStore.GetNotifications` | app/actions/platform/settings.ts:82-97 | the caller's notifications only, newest first |
| `SettingsActions.SettingsStore.MarkNotificationAsRead` | app/actions/platform/settings.ts:99-115 | marks only the caller's notification of that id; succeeds even when nothing matched |
| `SettingsActions.SettingsStore.GetNotificationPreferences` | app/actions/platform/settings.ts:119-133 | the caller's preferences, each once |
| `SettingsActions.SettingsStore.UpdateNotificationPreference` | app/actions/platform/settings.ts:135-171 | updates `enabled` on the existing row or inserts exactly one; a row for the triple exists afterwards; uniqueness per triple is preserved |
| `SettingsActions.SettingsStore.LogAuditAction` | app/actions/platform/settings.ts:175-194 | always appends exactly one audit row and nothing else |
| `SettingsActions.NoSetting` | app/actions/platform/settings.ts:50-52 | no row with the key means no setting |
| `SettingsActions.OnlySetting` | core/db/schemas/platform/settings.ts:15 | a stored setting is the only one with its key |
| `SettingsActions.SettingReplaced` | app/actions/platform/settings.ts:54-71 | after the write the key has exactly the written row |
| `SettingsActions.PreferenceUpdatedUnique` | app/actions/platform/settings.ts:152-157 | updating a found row keeps one row per triple |
| `SettingsActions.PreferenceInsertedUnique` | app/actions/platform/settings.ts:158-164 | inserting when none was found keeps one row per triple |
| `Users.SetRole` | app/actions/platform/users.ts:32 | only the target user's role changes |
| `Users.PromotedPassEverything` | lib/auth.ts:70-72 | after the blanket promotion every row, not just the verified user, passes every role check, with only its role changed |
| `Users.StoredRoleDecides` | app/actions/platform/users.ts:25-32 | any role string is stored unchecked, and an unknown one then fails every role check |
| `Users.SelfPromotion` | app/actions/platform/users.ts:28-32 | an admin may make anyone, themselves included, a superadmin, who then passes every check |
| `Users.UserTable.constructor` | app/actions/platform/users.ts:4 | the `user` table, keyed by id, starts as given |
| `Users.UserTable.GetUsers` | app/actions/platform/users.ts:11-23 | admins only; every user, newest first |
| `Users.UserTable.UpdateUserRole` | app/actions/platform/users.ts:25-38 | admins only; only the target's role changes; revalidates "/admin/users" |
| `Users.UserTable.PromoteEveryone` | lib/auth.ts:70-72 | the update without a `where` promotes every row |
| `Env.GetEnv` | lib/server/env.ts:30-36 | a set non-empty value wins; a set empty value is an error even with a default; when unset the default is used iff it is non-empty |
| `Env.EmptyDefaultNeverHelps` | lib/server/config.ts:39-44 | `getEnv(key, "")` behaves as if there were no default: unset means an error |
| `Env.SetValueWins` | lib/server/env.ts:31 | once the variable is set, even to the empty string, the default plays no part |
| `Auth.AuthorizedListJoin` | lib/auth.ts:66-68 | joining the list back with spaces gives the lower-cased variable: no text is lost, added or reordered |
| `Auth.AuthorizedIgnoresCase` | lib/auth.ts:68-69 | two addresses equal up to case are both authorised or both not |
| `Auth.EntriesAreAuthorized` | lib/auth.ts:66-69 | every listed address is authorised |
| `Auth.DoubleSpaceGivesEmptyEntry` | lib/auth.ts:67 | an example on the one input "a  b" (the general fact is `AuthorizedListJoin`): two spaces in a row produce an empty entry |
| `Auth.AfterEmailVerification` | lib/auth.ts:65-75 | an unset list is a thrown error; a listed address promotes every user row; otherwise nothing changes |
| `Auth.RoleIsServerOnly` | lib/auth.ts:55-59 | "role" is the only required additional field, and the client cannot set it |
| `BlogController.CurrentPage` | app/Http/Controllers/BlogController.php:25 | a requested page below 1 is served as page 1 |
| `BlogController.LastPage` | app/Http/Controllers/BlogController.php:41 | enough pages of ten for every row, at least one, and no empty page before the last |
| `BlogController.PageOf` | app/Http/Controllers/BlogController.php:25 | a page holds at most ten rows, the run of the listing starting at (page-1)*10 |
| `BlogController.RowOnItsPage` | app/Http/Controllers/BlogController.php:37-43 | every post is on the page its position says, at most the last page |
| `BlogController.LastPageIsLast` | app/Http/Controllers/BlogController.php:41 | the last page is non-empty when there are posts, and every later page is empty |
| `BlogController.TransformKeepsTree` | app/Http/Controllers/BlogController.php:88-103 | the transform drops, adds and moves no node |
| `BlogController.TransformStampsAll` | app/Http/Controllers/BlogController.php:88-96 | every loaded node gets both dates rendered |
| `BlogController.CommentError` | app/Http/Controllers/BlogController.php:115 | a comment passes iff it is present, not blank after trimming, and at most 1500 characters; a blank or missing one fails `required` |
| `BlogController.CommentErrorExamples` | app/Http/Controllers/BlogController.php:115 | empty and whitespace-only comments fail `required`; 1500 characters pass, 1501 fail |
| `BlogController.BlogSite.constructor` | app/Http/Controllers/BlogController.php:5-12 | the site starts with the given posts, keyed by id, and no comments |
| `BlogController.BlogSite.Index` | app/Http/Controllers/BlogController.php:21-46 | the served page is the requested page of the published posts, newest first, with total, page size and last-page figures |
| `BlogController.BlogSite.LoadSecondLevel` | app/Http/Controllers/BlogController.php:79-81 | exactly the replies to a comment, as leaves |
| `BlogController.BlogSite.LoadFirstLevel` | app/Http/Controllers/BlogController.php:76-83 | exactly the replies to a comment, each with exactly its own replies |
| `BlogController.BlogSite.LoadComments` | app/Http/Controllers/BlogController.php:72-86 | the post's top-level comments, newest first, each with two levels of replies |
| `BlogController.BlogSite.Show` | app/Http/Controllers/BlogController.php:55-111 | 404 unless the bound post is published and a published post has the slug; that post's views go up by one and it is shown with its transformed comment tree |
| `BlogController.BlogSite.PostComment` | app/Http/Controllers/BlogController.php:113-124 | a failed rule redirects back with nothing stored; otherwise one comment on the bound post, published or not, with the given parent or none, and a redirect to the post |
| `BlogController.ShownPostFollowsSlug` | app/Http/Controllers/BlogController.php:57-63 | which post is shown depends on the slug; any published bound post will do |
| `BlogController.DraftBoundRefused` | app/Http/Controllers/BlogController.php:57 | a draft bound post is refused even when the slug names a published post |
| `SubscriberPolicy.Allows` | app/Policies/SubscriberPolicy.php:11-70 | every ability is granted exactly to the role "admin" |
| `SubscriberPolicy.AbilitiesAgree` | app/Policies/SubscriberPolicy.php:19-70 | all seven abilities give the same answer, whatever the subscriber |
| `SubscriberPolicy.AuthorizeIsExactAdmin` | app/Policies/SubscriberPolicy.php:13 | the policy is the exact-"admin" gate; a guest is refused |
| `SubscriberPolicy.SuperAdminRefused` | app/Policies/SubscriberPolicy.php:13 | a superadmin passes the role hierarchy but is refused here |
| `SubscriberPolicy.CapitalisedAdminRefused` | app/Policies/SubscriberPolicy.php:13 | the comparison is case-sensitive |
| `AdminHeader.NonEmptyAppend` | app/admin/_components/admin-header.tsx:14 | `filter(Boolean)` works piece by piece: filtering a concatenation concatenates the filtered parts |
| `AdminHeader.NonEmptySingle` | app/admin/_components/admin-header.tsx:14 | a single piece is kept exactly when it is non-empty; with the row above this fixes the order and multiplicity of what is kept |
| `AdminHeader.SegmentsBelowAdmin` | app/admin/_components/admin-header.tsx:14 | for every path "/admin/" + t, the segments are the non-empty "/"-pieces of t, in order |
| `AdminHeader.Crumbs` | app/admin/_components/admin-header.tsx:22-35 | an "Admin" link to "/admin" first, then one crumb per segment; only the last is a page; earlier ones link to "/admin/" plus the segment |
| `AdminHeader.OnlyLastIsPage` | app/admin/_components/admin-header.tsx:29-35 | a page crumb can only be the last one |
| `AdminHeader.AdminRootHasNoSegments` | app/admin/_components/admin-header.tsx:14 | "/admin" and "/admin/" give no segments and only the Admin crumb |
| `AdminHeader.SegmentsOfPath` | app/admin/_components/admin-header.tsx:14 | a path below "/admin/" joined from non-empty, "/"-free pieces gives those pieces back as its segments |
| `AdminHeader.NestedLinksAreNotCumulative` | app/admin/_components/admin-header.tsx:32 | an example on one path (the general fact is `SegmentsBelowAdmin` with `Crumbs`): on "/admin/events/new" the events crumb links to "/admin/events" and "new" is the page |
| `AdminSidebar.AtMostOneSection` | app/admin/_components/admin-sidebar.tsx:88 | at most one section besides the dashboard is highlighted, and the dashboard is highlighted whenever anything is |
| `AdminSidebar.ItemsShape` | app/admin/_components/admin-sidebar.tsx:28-69 | eight items, Dashboard first at "/admin", every other URL below "/admin/", no URL repeated |
| `AdminSidebar.OnlyDashboardOnAdmin` | app/admin/_components/admin-sidebar.tsx:30-33 | on "/admin" only the dashboard is highlighted |
| `AdminSidebar.DashboardActiveBelowAdmin` | app/admin/_components/admin-sidebar.tsx:88 | every page below "/admin/" highlights the dashboard too |
| `AdminSidebar.EventsPageHighlightsTwo` | app/admin/_components/admin-sidebar.tsx:30-38 | "/admin/events/new" highlights both Dashboard and Events |
| `AdminSidebar.PrefixWithoutSlashInactive` | app/admin/_components/admin-sidebar.tsx:88 | "/admin/eventsx" does not highlight Events |
| `ProgramForm.StatusFromLabel` | app/admin/programs/create/create-program-client.tsx:28 | the form accepts exactly the schema's status labels, each naming its own status |
| `ProgramForm.DateField` | app/admin/programs/create/create-program-client.tsx:50-51 | an absent or empty date is sent as undefined; any other is converted |
| `ProgramForm.Submission` | app/admin/programs/create/create-program-client.tsx:47-52 | the payload carries the fields as entered, a named status and the converted dates |
| `ProgramForm.FormStatusesAreSchemaStatuses` | app/admin/programs/create/create-program-client.tsx:28 | the form's statuses are exactly the program-status enum |
| `ProgramForm.DefaultValuesShape` | app/admin/programs/create/create-program-client.tsx:37-44 | the defaults select draft and do not pass validation |
| `ProgramForm.SubmittedStatusKept` | app/admin/programs/create/create-program-client.tsx:48-52 | the stored program has the status chosen in the form |
| `ProgramForm.EndBeforeStartAccepted` | app/admin/programs/create/create-program-client.tsx:29-30 | an end date before the start date is accepted and sent |
| `ProgramForm.AstralCharCountsTwice` | app/admin/programs/create/create-program-client.tsx:25 | one character outside the BMP already meets `min(2)` |
| `ProgramForm.BmpTitleLength` | app/admin/programs/create/create-program-client.tsx:25 | for BMP text, `min(2)` means at least two characters |
| `BlogForm.StatusFromLabel` | app/admin/blog/create/create-blog-client.tsx:29 | the form accepts exactly the schema's status labels, each naming its own status |
| `BlogForm.Submission` | app/admin/blog/create/create-blog-client.tsx:47-51 | the payload carries the fields as entered, a named status, and an empty tag list |
| `BlogForm.FormStatusesAreSchemaStatuses` | app/admin/blog/create/create-blog-client.tsx:29 | the form's statuses are exactly the blog-post status enum |
| `BlogForm.DefaultValuesShape` | app/admin/blog/create/create-blog-client.tsx:37-44 | the defaults select draft and do not pass validation |
| `BlogForm.UntouchedOptionalsStoredEmpty` | app/admin/blog/create/create-blog-client.tsx:41-49 | an untouched excerpt or cover is stored as "", not as null |
| `BlogForm.OptionalsMayBeAbsent` | app/admin/blog/create/create-blog-client.tsx:28-30 | excerpt and cover may be left out |

## Left out

- Database plumbing is replaced by class-held maps:
  - the Drizzle query builder, relations (only the names and tables of the settings schema's declarations are modelled) and `with` joins (author, category and user data attached to rows);
  - the connection setup.
- Foreign keys to the user table are not checked, because the user table lives outside each store. Deleting a user is modelled only for the governance and settings tables, as the pure `*AfterUserDelete` functions and the `UserDeleteOk` lemmas.
- The user-table cascades of the blog tables (posts, comments and views, core/db/schemas/social/blog.ts:37, 85, 105), the events tables (core/db/schemas/community/events.ts:21, 89, 128, 150) and the programs tables (core/db/schemas/community/programs.ts:51, 85, 103) are not modelled: no action in this model deletes a user.
- Concurrency, transactions and the races between a "find" and the following insert are not modelled; handlers run one at a time.
- A thrown database error is modelled only where a constraint causes it: duplicate keys and missing references. Other failures are not. Those two error messages are placeholders for Postgres's texts.
- `revalidatePath` is a ghost log of paths. Wall-clock time is a `now` parameter. Date rendering (`getDateAttribute`, `getCreatedAtAttribute`) is a `format` parameter.
- JavaScript `toLowerCase` is modelled for ASCII letters only; other letters pass unchanged.
- Auth plumbing is not modelled:
  - the better-auth configuration, social providers, magic-link e-mails and sessions (`getCurrentUser`);
  - everything in lib/auth.ts except the role field and `afterEmailVerification`.
- `BlogActions.PatchPostKeepsIdentity`: a patch cannot name `id`. The update's `Partial<$inferInsert>` type admits one, and setting it would move the row to another primary key; the model's stores are keyed by id and do not represent that move or its duplicate-key failure. An `updatedAt` in a patch is overwritten by the spread order, as modelled.
- `ProgramsActions.PatchKeepsIdentity`: a program or project patch cannot name `id`, for the same reason.
- `EventsActions.PatchEventKeepsIdentity`: an event patch cannot name `id`, for the same reason.
- `GovernanceActions.PatchRole`: a role patch cannot name `id`, for the same reason.
- `GovernanceActions.PatchProfile`: the profile input cannot name `id`, for the same reason; on insert its `createdAt` is honoured, its `updatedAt` is not modelled.
- The create actions' input types likewise admit an explicit `id`, `createdAt` and `updatedAt`; apart from the profile's `createdAt`, inserted rows always take the serial id and `now`.
- Patch types cannot express an explicit `null` for a NOT NULL column or an unknown column name; drizzle would reject those at run time, and the model cannot represent them.
- Laravel blog controller:
  - `category()` is not modelled; it renders nothing.
  - The likes and comment counts, the `isLiked` flag and the tag, category and author joins are not modelled.
  - Pagination links are not modelled.
  - The `TrimStrings` and `ConvertEmptyStringsToNull` middleware, and non-string `comment` values, are not modelled.
- `BlogController.BlogSite.Show`: the comment tree is the two eager-loaded reply levels. `$comment->replies` on a third-level node would lazy-load further levels under Laravel's default settings; that is not modelled. The order of replies is unspecified, since the nested queries have no `orderBy`, so only their multiset is stated.
- `BlogController.BlogSite.Show`: `firstOrFail` on a slug shared by several published posts picks one of them; the model leaves the choice free, since the Laravel posts table's constraints are not part of this model.
- `BlogController.BlogSite.PostComment`: with no signed-in user the insert fails (`NoAuthor`). The route's middleware, which may prevent that case, is not part of this model.
- `Env.GetEnv`: the list of known keys (`Env` type) is not modelled; any string key is accepted.
- `SettingsActions.SettingsStore.UpdateSystemSetting`: the `jsonb` value is modelled as text; a `null` or `undefined` value, which the NOT NULL column rejects, is not modelled.
- The `activity_logs` table (core/db/schemas/platform/settings.ts:73) and `blog_moderation_queue` (core/db/schemas/social/blog.ts:111) are not modelled: no action reads or writes them.
- Event invitations have no action either; only their table's constraints and cascade are modelled.
- The breadcrumb's `capitalize` class, icons, dropdown and all other rendering are presentation only.

## Findings

| source | as written | input that shows it | evidently intended | confidence | as-written member | corrected member |
|---|---|---|---|---|---|---|
| core/db/schemas/platform/settings.ts:141-160 | `notificationsRelations`, `auditLogsRelations` and `activityLogsRelations` are declared a second time, after the type exports; the first declarations are at lines 102, 109 and 116 | the module itself: two `export const` declarations of one name are a "Cannot redeclare block-scoped variable" error, so the schema file does not compile | each relation declared once; the repeated block is identical to the first and can be dropped | not executed | `SettingsSchema.RelationsRedeclared` | `SettingsSchema.RelationsDeclaredOnce` |
| app/actions/community/governance.ts:175-180 | the update branch spreads the whole input into `set`, so a `userId` in the input rewrites the row's owner | alice, who has a profile, calls `updateContributorProfile({ userId: "bob" })`: afterwards alice has no profile and bob owns hers | the insert branch forces `userId: user.id` (line 184); the update should likewise keep the caller as owner | not executed | `GovernanceActions.ProfileUpdateMovesProfile` | `GovernanceActions.PatchProfile` |
