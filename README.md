# Halaqat management core, modelled in Dafny

The halaqat system runs Quran-memorisation circles. Schools ("مجمعات الحلقات") hold
semesters and classes. Teachers grade students' recitation and record their attendance,
points, daily reports and homework. Parents link their children's accounts.
The system is an Express/PostgreSQL backend with a React frontend.

This project models the logic under that plumbing and proves what the code promises. It has four parts.

- **Quran positions and progress.** The 114-surah table in mushaf order and in memorisation
  order, the page arithmetic, goal progress and next-ayah stepping, and the hafs loader's tuple
  parser.
  Modules: `Mushaf`, `QuranData`, `QuranUtils`, `SurahTable`, `StudentUtils`, `ClassUtils`,
  `HafsLoader`, `QuranRoute`, `StudentProfileModal`.
- **Access control.** The role definitions, the privilege checker, the scope validator, the rbac
  middleware, the frontend privilege cache and the CSRF double-submit check.
  Modules: `RoleDefinitions`, `PrivilegeChecker`, `ScopeValidator`, `Rbac`, `PrivilegeUtils`, `Csrf`.
- **Parsers, serialisers and validators.** Reference strings, the `SCHOOL_ID:` qualifications
  encoding, numbered SQL placeholders, cookie parsing, e-mail masking, registration forms, and the
  password rules.
  Modules: `SqlParams`, `FormRules`, `Common` and the page modules.
- **Table updates and aggregation.** Each route handler's database tables become maps and
  sequences held in the fields of a class. A handler that changes those tables becomes a method
  that states its new state and reply. A handler that only reads rows, or whose writes are returned
  rows (`ClassesRoute.AddGrade` returns the grade row and the attendance row it upserts), is a
  function. Each page's React state becomes a class, or a function over its value.

One Dafny module stands for each source file. A handler or page function that mutates state is a
`method` of a class; pure computations are functions; what the code promises is proved in
`ensures` clauses and lemmas.

What the model takes as inputs:
- The database is the class fields. Rows a handler only reads from a query are parameters.
- The clock ("now", "today") is a parameter. So are randomness (reset tokens), bcrypt, `Date.parse`,
  the mail transport and the network.

Dates are whole day numbers; day 0 is a Sunday. JavaScript's truthiness is written out
(`Truthy`). `parseInt` and `Number` are modelled on decimal text.

## Model

| member | source | states |
|---|---|---|
| Mushaf.AyahCount | backend/utils/quranData.js:2-117 | a surah has a positive ayah count exactly when its id is in 1..114 |
| Mushaf.NamesDistinct | backend/utils/quranData.js:2-117 | two different surahs of the table never share a name |
| Mushaf.NameNonEmpty | backend/utils/quranData.js:2-117 | every surah of the table has a non-empty name, so "" can stand for an unknown id |
| Mushaf.IdOfName | backend/utils/quranData.js:2-117 | a name looks up 0 or the id of a surah that carries exactly that name |
| Mushaf.IdOfNameOfName | backend/utils/quranData.js:2-117 | each surah's name looks up its own id again |
| Mushaf.IdOfNameUnknown | backend/utils/quranData.js:2-117 | a name looks up 0 if and only if no surah carries it |
| QuranData.TotalPages | backend/utils/quranData.js:2-117 | the mushaf-order table gives a positive page count exactly to the ids 1..114 |
| QuranData.PagesWithin | backend/utils/quranData.js:127-134 | the ceiling of ayah/count·pages never exceeds the pages, is all of them once the ayah reaches the count, is never negative for a non-negative ayah and positive for a positive one |
| QuranData.PagesWithinMonotone | backend/utils/quranData.js:127-134 | more ayahs never cover fewer pages |
| QuranData.PagesForAyah | backend/utils/quranData.js:123-135 | 0 for an unknown surah, the surah's whole page count once the ayah reaches its ayah count, never more than that count and never negative for ayah ≥ 0 |
| QuranData.PagesForAyahMonotone | backend/utils/quranData.js:123-135 | for a fixed surah the page count never decreases as the ayah grows |
| QuranData.PagesAfterStep | backend/utils/quranData.js:146-151 | the pages after surah id−1 are surah id's pages plus the pages after id, the step the descending loop takes |
| QuranData.MemorizedPages | backend/utils/quranData.js:138-157 | the descending loop returns 0 for a falsy surah or ayah and otherwise the pages of every surah after the current one plus the current surah's share |
| QuranData.MemorizedPagesBackwards | backend/utils/quranData.js:146-154 | for ayah ≥ 1, stopping one surah earlier never gives fewer pages than any ayah of the later surah |
| QuranUtils.MushafIdAt | backend/utils/quranUtils.js:2-117 | the memorisation-order row at a position 1..114 is a mushaf surah 1..114 (al-Fatiha first, then an-Nas back to al-Baqara) |
| QuranUtils.MushafIdAtInverse | backend/utils/quranUtils.js:2-117 | the position-to-mushaf mapping is its own inverse, so the table lists every surah exactly once |
| QuranUtils.MemoAyahCount | backend/utils/quranUtils.js:2-117 | the table's ayah count is positive exactly for ids 1..114 |
| QuranUtils.MemoPages | backend/utils/quranUtils.js:2-117 | the table's page count is positive exactly for ids 1..114 |
| QuranUtils.Position | backend/utils/quranUtils.js:137-140 | getMemorizationPosition is 0 exactly for an id no row carries |
| QuranUtils.SurahIdAt | backend/utils/quranUtils.js:143-146 | getSurahIdFromPosition is 0 exactly outside 1..114 |
| QuranUtils.PositionRoundTrip | backend/utils/quranUtils.js:137-146 | getSurahIdFromPosition(getMemorizationPosition(id)) == id for every table id, and the other way round for every position 1..114 |
| QuranUtils.MemoPagesForAyah | backend/utils/quranUtils.js:122-134 | calculatePagesForAyah: 0 for an unknown surah, totalPages once the ayah reaches ayahCount, never more than totalPages, never negative for ayah ≥ 0 |
| QuranUtils.MemoAyahsThroughMonotone | backend/utils/quranUtils.js:185-192 | the ayahs of the positions before a later position are never fewer |
| QuranUtils.MemoPagesUpTo20 | backend/utils/quranUtils.js:2-117 | the first 20 rows of the table add up to 20 pages |
| QuranUtils.MemoPagesUpTo40 | backend/utils/quranUtils.js:2-117 | the first 40 rows add up to 45 pages |
| QuranUtils.MemoPagesUpTo60 | backend/utils/quranUtils.js:2-117 | the first 60 rows add up to 90 pages |
| QuranUtils.MemoPagesUpTo80 | backend/utils/quranUtils.js:2-117 | the first 80 rows add up to 184 pages |
| QuranUtils.MemoPagesUpTo100 | backend/utils/quranUtils.js:2-117 | the first 100 rows add up to 357 pages |
| QuranUtils.MemoPagesUpTo114 | backend/utils/quranUtils.js:2-117 | all 114 rows add up to 622 pages, more than the 604 of line 119 |
| QuranUtils.QuranProgress | backend/utils/quranUtils.js:149-220 | calculateQuranProgress: the all-zero record for a falsy or unknown surah or a falsy ayah; otherwise memorizedAyahs = ayahs of the earlier positions + the ayah, memorizedPages likewise, completedSurahs = position − 1 plus 1 exactly at the surah's last ayah, and the remaining counts are total minus memorised |
| QuranUtils.ProgressAyahBounds | backend/utils/quranUtils.js:184-214 | for an ayah within the surah the memorised ayahs lie in (0, totalAyahs], so remainingAyahs ≥ 0, and it is 0 at the last ayah of the last position |
| QuranUtils.CompleteQuranLeavesNegativePages | backend/utils/quranUtils.js:175-218 | completing the last position (al-Baqara, 286 ayahs) yields remainingPages = −18 (also lines 2-117) |
| QuranUtils.CorrectedRemainingPages | backend/utils/quranUtils.js:218 | remaining pages clamped into [0, 604], adding up to 604 with the memorised pages whenever those lie in range |
| QuranUtils.CorrectedRemainingPagesAtEnd | backend/utils/quranUtils.js:218 | with the clamp a student who completes the whole table has 0 pages left |
| QuranUtils.NameOfId | backend/utils/quranUtils.js:223-226 | getSurahNameFromId returns '' exactly for an unknown id |
| QuranUtils.IdOfMemoName | backend/utils/quranUtils.js:229-232 | getSurahIdFromName returns 0 or an id whose row has exactly that name |
| QuranUtils.IdOfMemoNameRoundTrip | backend/utils/quranUtils.js:223-232 | getSurahIdFromName(getSurahNameFromId(id)) == id for every table id, and a name gives 0 iff no row carries it |
| SurahTable.IndexOfId | frontend/src/utils/studentUtils.js:109-113 | findIndex: the first row with this id, or none iff no row has it |
| SurahTable.Find | frontend/src/utils/studentUtils.js:5 | find: a row of the table with this id, or none iff no row has it |
| SurahTable.Position | frontend/src/utils/studentUtils.js:109-113 | getMemorizationPosition lies in 0..\|table\| and is 0 iff no row has the id |
| SurahTable.SurahIdAt | frontend/src/utils/studentUtils.js:115-119 | getSurahIdFromPosition gives row position−1's id inside 1..\|table\| and 0 outside |
| SurahTable.PositionRoundTrip | frontend/src/utils/studentUtils.js:109-119 | on a table with distinct ids the two conversions are inverse both ways |
| SurahTable.RowAt | frontend/src/utils/studentUtils.js:142-143 | the loops' lookup by position finds row position−1 inside the table and nothing outside |
| SurahTable.CountAt | frontend/src/utils/studentUtils.js:142-146 | the ayah count the loops add for a position: positive inside the table, 0 where they skip |
| SurahTable.FullAyahsNonNegative | frontend/src/utils/studentUtils.js:139-147 | a sum of ayah counts over a range of positions is never negative |
| StudentUtils.PagesForAyah | frontend/src/utils/studentUtils.js:4-16 | calculatePagesForAyah over the page's table: 0 for an unknown surah, all of the surah's pages once the ayah reaches its count, never more, never negative for ayah ≥ 0 |
| StudentUtils.PagesAt | frontend/src/utils/studentUtils.js:56-61 | the pages the progress loop adds at a position: the row's pages inside the table, 0 where it skips |
| StudentUtils.FullAyahsMonotone | frontend/src/utils/studentUtils.js:54-62 | summing the ayahs of more positions never gives fewer |
| StudentUtils.QuranProgress | frontend/src/utils/studentUtils.js:19-90 | calculateQuranProgress: the all-zero record for a falsy or unknown surah or falsy ayah; otherwise the earlier positions' ayahs and pages plus the current surah's share, completed surahs = position − 1 plus 1 at the last ayah, remaining = total − memorised |
| StudentUtils.ProgressAyahBounds | frontend/src/utils/studentUtils.js:44-84 | for an ayah within its surah the memorised ayahs lie in (0, totalAyahs], so remainingAyahs ≥ 0 |
| StudentUtils.SpanPrefix | frontend/src/utils/studentUtils.js:174-189 | the loop from the current position adds the rest of the current surah and then whole surahs up to any earlier stop |
| StudentUtils.SpanClosedForm | frontend/src/utils/studentUtils.js:172-191 | from a position before the target the total is (ayahCount(current) − currentAyah) + the surahs in between + targetAyah |
| StudentUtils.LeadInPrefix | frontend/src/utils/studentUtils.js:139-153 | without a memorised surah the loop adds whole surahs up to any position before the target |
| StudentUtils.LeadInClosedForm | frontend/src/utils/studentUtils.js:139-154 | without a memorised surah the total is every surah before the target plus min(targetAyah, the target's ayah count) |
| StudentUtils.LeadInLoop | frontend/src/utils/studentUtils.js:141-153 | the loop from position 1 to the target computes LeadIn |
| StudentUtils.SpanLoop | frontend/src/utils/studentUtils.js:174-189 | the loop from the current to the target position computes Span |
| StudentUtils.GoalProgress | frontend/src/utils/studentUtils.js:121-206 | calculateStudentGoalProgress: zeros without a target or with a total ≤ 0; with a positive total, (100, 1, 1) exactly when the target is reached, and otherwise (0, 0, total): nothing counts as memorised until the target is reached |
| StudentUtils.BarVersesFromStart | frontend/src/utils/studentUtils.js:229-262 | with nothing memorised and a non-negative target ayah the bar's total is never negative |
| StudentUtils.GoalProgressBar | frontend/src/utils/studentUtils.js:209-334 | calculateGoalProgressBar: zeros without a target, baselineVerses always 0, new progress = total and remaining = 0 once the target is reached, new progress 0 before it (baseline and current coincide), remainingVerses ≥ 0, percentages of the total or 0 |
| StudentUtils.AyahOptions | frontend/src/utils/studentUtils.js:337-347 | generateAyahOptions: [] for a falsy or unknown surah, otherwise exactly 1..ayahCount |
| StudentUtils.ProgressBand | frontend/src/utils/studentUtils.js:92-106 | the 90/70/50/30 ladder picks a band in 0..4 |
| StudentUtils.ColoursShareBands | frontend/src/utils/studentUtils.js:92-106 | getProgressColor and getProgressBgColor always pick the same band, and a higher percentage never gets a lower band |
| ClassUtils.MaxVerse | frontend/src/utils/classUtils.js:4-53 | getMaxVerse is always at least 1 |
| ClassUtils.MaxVerseOfName | frontend/src/utils/classUtils.js:4-53 | a surah's name gives its verse count, any other string gives 1 |
| ClassUtils.SurahIdFromName | frontend/src/utils/classUtils.js:56-83 | getSurahIdFromName gives the id whose name is exactly this one, or null iff no surah has the name |
| ClassUtils.SurahNameFromId | frontend/src/utils/classUtils.js:86-113 | getSurahNameFromId gives a name exactly for ids 1..114 |
| ClassUtils.SurahNameIdRoundTrip | frontend/src/utils/classUtils.js:56-113 | the two maps are inverse on 1..114 (الفاتحة = 1 … الناس = 114) |
| ClassUtils.MaxVerseById | frontend/src/utils/classUtils.js:127-130 | getMaxVerseById is never negative |
| ClassUtils.GoalSumMiddle | frontend/src/utils/classUtils.js:162-176 | the descending loop adds max(0, ayahs(current) − currentAyah) and then whole surahs down to any stop above the target |
| ClassUtils.GoalSumClosedForm | frontend/src/utils/classUtils.js:160-176 | from a higher id than the target the total is the rest of the current surah, every surah in between and targetAyah |
| ClassUtils.DescendingLoop | frontend/src/utils/classUtils.js:140-176 | the descending loop from an id through the target computes GoalSum |
| ClassUtils.GoalProgress | frontend/src/utils/classUtils.js:116-194 | calculateStudentGoalProgress (nested record first, then flat): zeros without a goal or with a total ≤ 0; with a positive total, (100, 1, 1) exactly when the target is reached, otherwise (0, 0, total) |
| ClassUtils.CanManageClass | frontend/src/utils/classUtils.js:219-223 | canManageClass: the admin manages every class, an administrator exactly the classes of their own school, no other role any |
| ClassUtils.FilteredClassesManageable | frontend/src/utils/classUtils.js:219-239 | for an administrator with a school, a class is listed exactly when they may manage it |
| ClassUtils.FilteredSchools | frontend/src/utils/classUtils.js:225-231 | getFilteredSchools: everything for admin, exactly the schools with the user's id for an administrator with a school, nothing otherwise |
| ClassUtils.FilteredClasses | frontend/src/utils/classUtils.js:233-239 | getFilteredClasses: exactly the classes of the user's school for an administrator with a school, every class for any other role |
| ClassUtils.FilteredTeachers | frontend/src/utils/classUtils.js:241-258 | getFilteredTeachers: nothing without a school, otherwise exactly the teachers whose school_id, schools list or school_ids list names it |
| RoleDefinitions.DefaultPermission | src/config/roleDefinitions.ts:7-74 | each role's default permission follows its privilege type: full, edit or read-only |
| RoleDefinitions.PermissionsForRole | src/config/roleDefinitions.ts:76-84 | getPermissionsForRole: the role's custom entry for a non-empty resource when it has one, and exactly the role's default when the resource is missing or empty or has no entry; view is always granted and delete exactly to admin and administrator |
| RoleDefinitions.DeleteOnlyFullAccess | src/config/roleDefinitions.ts:7-84 | no custom entry grants delete, so only the full-access roles may delete |
| RoleDefinitions.ReadOnlyRoles | src/config/roleDefinitions.ts:46-74 | a parent or student may edit exactly its own profile, and a parent also the children's profiles |
| RoleDefinitions.CustomOverridesDefault | src/config/roleDefinitions.ts:29-83 | for every role and resource a custom entry is the answer, and the answer differs from the default exactly where a parent or a student has the edit entry (its own profile, say) |
| PrivilegeChecker.PermitsAction | src/utils/privilegeChecker.ts:17-28 | only view, edit and delete can be granted, each by its own flag |
| PrivilegeChecker.InScope | src/utils/privilegeChecker.ts:30-73 | hasScope: global always; profile and student-self exactly for the owner; school level exactly within the user's school; class level exactly within the school and one of the user's classes; parent-children exactly for the owner or one of the parent's children |
| PrivilegeChecker.HasAccess | src/utils/privilegeChecker.ts:6-15 | hasAccess holds iff the role's permission for the resource allows the action and the role's scope admits the resource |
| PrivilegeChecker.HasAccessBounds | src/utils/privilegeChecker.ts:6-28 | deleting needs admin or administrator, and an action other than view/edit/delete is always refused |
| PrivilegeChecker.TeacherNeedsClass | src/utils/privilegeChecker.ts:38-65 | a teacher reaches a resource only in its own school and one of its classes |
| PrivilegeChecker.FamilyScopes | src/utils/privilegeChecker.ts:41-73 | a student reaches only its own resources, a parent its own and its children's |
| PrivilegeChecker.CanView | src/utils/privilegeChecker.ts:75-84 | canView holds exactly when the role's scope admits the resource, since view is always granted |
| PrivilegeChecker.CanEdit | src/utils/privilegeChecker.ts:86-95 | canEdit exactly when the role's permission for the resource has edit and the edit access is in the role's scope |
| PrivilegeChecker.CanDelete | src/utils/privilegeChecker.ts:97-106 | canDelete exactly for admin or administrator with the delete access in scope |
| PrivilegeChecker.AccessibleSchools | src/utils/privilegeChecker.ts:108-116 | getAccessibleSchools: 'all' exactly for the global scope, otherwise the user's school or [] without one |
| PrivilegeChecker.AccessibleClasses | src/utils/privilegeChecker.ts:118-130 | getAccessibleClasses: 'all' exactly for the global and school scopes, otherwise the user's class list or [] |
| PrivilegeChecker.CanAccessStudent | src/utils/privilegeChecker.ts:132-154 | canAccessStudent: admin always, administrator and supervisor in their school, teacher in its school and one of its classes, parent for its children, student for itself |
| PrivilegeChecker.AccessibleStudents | src/utils/privilegeChecker.ts:156-177 | getAccessibleStudents: the children for a parent, itself for a student, 'all' for every other role |
| PrivilegeChecker.AccessibleStudentsCoverAccess | src/utils/privilegeChecker.ts:132-177 | the student list never leaves out a student the role may reach, and for parents and students it names exactly those |
| ScopeValidator.ItemAccessByRole | src/utils/scopeValidator.ts:10-32 | canAccessItem lets a teacher see only items of its school with a class list, and a student only items it owns or is the student of |
| ScopeValidator.ValidateDataAccess | src/utils/scopeValidator.ts:6-8 | validateDataAccess keeps exactly the items canAccessItem accepts |
| ScopeValidator.BuildScopeQuery | src/utils/scopeValidator.ts:34-71 | buildScopeQuery as written: the base query unchanged for admin, otherwise only the scope keys added or overwritten |
| ScopeValidator.ScopeQueryAgreesWithFilter | src/utils/scopeValidator.ts:10-71 | for every role but parent (a teacher with classes), the query from an empty base selects exactly the items canAccessItem accepts |
| ScopeValidator.ChildlessParentQueryUnrestricted | src/utils/scopeValidator.ts:54-61 | as written a parent without children gets an empty query, which selects an item the filter refuses |
| ScopeValidator.ScopeQuery | src/utils/scopeValidator.ts:34-71 | the intended query adds the id lists even when empty; admin keeps the base, other keys are kept |
| ScopeValidator.ScopeQuerySound | src/utils/scopeValidator.ts:10-71 | the intended query never hides an item the filter accepts, agrees with it for all roles but parent, and a parent's query matches only its children's items |
| ScopeValidator.ValidateStudentAccess | src/utils/scopeValidator.ts:73-75 | validateStudentAccess: a student reaches only itself, a parent only its children |
| ScopeValidator.ValidateGradeAccess | src/utils/scopeValidator.ts:77-87 | validateGradeAccess: a student only its own grades, a teacher those of its school and classes, an admin all |
| ScopeValidator.ValidateClassAccess | src/utils/scopeValidator.ts:89-104 | validateClassAccess: admin, administrator and supervisor always, a teacher exactly for its own classes, nobody else |
| ScopeValidator.AccessibleUserIds | src/utils/scopeValidator.ts:106-125 | getAccessibleUserIds: a parent itself and its children, a student itself, 'all' for every other role |
| ScopeValidator.CanAccessUserProfile | src/utils/scopeValidator.ts:127-135 | canAccessUserProfile: a student only itself, a parent itself and its children, every other role anyone |
| ScopeValidator.Shown | src/utils/scopeValidator.ts:145-167 | the fields a role is shown: a subset of the record with unchanged values; the allow lists for a parent's student profile and a teacher's students, the restricted fields removed from a student's own profile |
| ScopeValidator.KeepOnly | src/utils/scopeValidator.ts:148-153 | keeping the allowed keys leaves exactly the record's keys in the list, with their values |
| ScopeValidator.DeleteOthers | src/utils/scopeValidator.ts:148-166 | the forEach that deletes every key not in the allowed list leaves exactly KeepOnly |
| ScopeValidator.FilterFieldsAsWritten | src/utils/scopeValidator.ts:138 | as written filterFields calls PrivilegeChecker.getPermissionsForRole, which the class does not define, so every call throws |
| ScopeValidator.FilterFields | src/utils/scopeValidator.ts:137-170 | filterFields with the role table's permission: null without view, otherwise the shown fields; since every role may view, always a record |
| ScopeValidator.StudentsInClass | src/utils/scopeValidator.ts:172-185 | getStudentsInClass: nothing without class access, otherwise the shown form of exactly the accessible students of that class |
| ScopeValidator.StudentsInClassAsWrittenThrows | src/utils/scopeValidator.ts:138-185 | as written, a class with an accessible student makes the call throw, where the intended version returns a non-empty list |
| ScopeValidator.TeacherClassList | src/utils/scopeValidator.ts:187-196 | getTeacherClassList: nothing for other roles, for a teacher exactly the classes of its school whose id is in its class list |
| Rbac.LevelOf | backend/middleware/rbac.js:14-21 | ROLE_HIERARCHY: a listed role's level is at most 5, and 5 belongs to admin alone |
| Rbac.LevelsDistinct | backend/middleware/rbac.js:14-21 | distinct roles have distinct levels, so the hierarchy is a strict order |
| Rbac.RequireRole | backend/middleware/rbac.js:24-49 | requireRole: 401 exactly without a user, 403 for a role the table does not list, and the request passes exactly when the user's level is known and not below the required one (an unlisted minimum role lets every known role through) |
| Rbac.RequireRoleMonotone | backend/middleware/rbac.js:24-49 | passing the gate of a role means passing the gate of every lower role |
| Rbac.FirstTruthy | backend/middleware/rbac.js:66-119 | `a \|\| b` on two optional strings: the first non-empty one, none iff both are falsy |
| Rbac.RequireSchoolAccess | backend/middleware/rbac.js:52-109 | requireSchoolAccess: 401 without a user, the admin always passes, 400 without a target school; anyone else passes exactly when the school of their own row equals parseInt of the target, and gets 403 otherwise |
| Rbac.FamilyNeverPassesSchoolGate | backend/middleware/rbac.js:75-104 | parents and students have no stored school, so they never pass the school gate |
| Rbac.CanManageUser | backend/middleware/rbac.js:112-168 | canManageUser as written: 401 without a user, 400 without a target, the admin passes, 404 for an unknown target, 403 for a target at or above the user by the undefined-aware comparison, a supervisor never manages a supervisor, administrator or admin, and the user passes exactly when known, with a target, and admin or not at or below the target |
| Rbac.SupervisorRuleRedundant | backend/middleware/rbac.js:141-161 | once the level check passes for a supervisor, the target is never a supervisor, administrator or admin, so lines 154-161 decide nothing |
| Rbac.UnknownRoleManagesAnyone | backend/middleware/rbac.js:141-151 | as written a user whose role the table does not list passes for any existing target, because `undefined <= x` is false |
| Rbac.GuestHasNoLevel | backend/middleware/rbac.js:14-21 | such a role exists: "guest" lower-cases to itself and has no level (also line 118) |
| Rbac.LowerCaseFixed | backend/middleware/rbac.js:118 | a role without capital letters is its own lower case |
| Rbac.CanManageUserIntended | backend/middleware/rbac.js:112-168 | the intended rule: a non-admin passes only with a known level strictly above the target's |
| Rbac.IntendedNeverManagesUpward | backend/middleware/rbac.js:144-151 | under the intended rule nobody but the admin manages a user of equal or higher level, and a user without a level manages nobody with one |
| Rbac.GetUserPermissions | backend/middleware/rbac.js:171-229 | getUserPermissions: null iff the user is unknown; the role and level follow the stored role; schools and privileges exactly for admin; user management for admin, administrator and supervisor; class management and reports exactly for those and teachers; only a non-admin staff role has a school, the one its row gives |
| PrivilegeUtils.PrivilegeCache.constructor | frontend/src/utils/privilegeUtils.js:4-5 | the cache and its expiry map start empty |
| PrivilegeUtils.PrivilegeCache.Clear | frontend/src/utils/privilegeUtils.js:9-12 | clearPrivilegeCache empties both maps |
| PrivilegeUtils.PrivilegeCache.GetUserPrivileges | frontend/src/utils/privilegeUtils.js:15-42 | getUserPrivileges: {} for an empty id with nothing changed; a fresh cached entry is served with nothing changed; otherwise a fetched result is returned and stored with expiry now + 5 minutes, and a failed fetch returns {} and leaves the cache as it was |
| PrivilegeUtils.PrivilegeCache.RefreshUserPrivileges | frontend/src/utils/privilegeUtils.js:208-215 | refreshUserPrivileges drops the entry and fetches afresh: the fetched result is stored and returned, or the entry stays dropped and {} is returned |
| PrivilegeUtils.EntryExpiresAfterFiveMinutes | frontend/src/utils/privilegeUtils.js:6-35 | an entry stored at time t is served exactly while now < t + 300000 |
| PrivilegeUtils.RoleCategory | frontend/src/utils/privilegeUtils.js:45-94 | rolePermissions: the admin holds `all` on the six categories, and an `all` entry of the table always grants |
| PrivilegeUtils.HasPermission | frontend/src/utils/privilegeUtils.js:97-123 | hasPermission: false without a user or role; a custom entry for the action decides first, then a custom `all`; with neither, the role table's entry for the resource and action |
| PrivilegeUtils.NoCustomMeansRoleTable | frontend/src/utils/privilegeUtils.js:101-122 | without custom privileges for the category the role table decides: its `all`, else its entry for the action |
| PrivilegeUtils.CustomAllOverridesRole | frontend/src/utils/privilegeUtils.js:110-116 | a custom `all` decides every action the custom entry does not name, whatever the role table says |
| PrivilegeUtils.AdminHoldsEverything | frontend/src/utils/privilegeUtils.js:45-53 | an admin without custom privileges holds every action of every known category (also lines 118-120) |
| PrivilegeUtils.ManageNeedsAll | frontend/src/utils/privilegeUtils.js:45-94 | the role table has no `manage` entries, so without custom privileges only an `all` grants manage (also lines 118-122) |
| PrivilegeUtils.RoutePermission | frontend/src/utils/privilegeUtils.js:130-148 | every mapped route is guarded by one of the six categories |
| PrivilegeUtils.RoleRoutes | frontend/src/utils/privilegeUtils.js:162-183 | the fallback route list is empty for a role the table does not list |
| PrivilegeUtils.CheckRoleAccess | frontend/src/utils/privilegeUtils.js:161-187 | checkRoleAccess holds exactly for a route in the role's list, never for an unknown role |
| PrivilegeUtils.HasRouteAccess | frontend/src/utils/privilegeUtils.js:126-158 | hasRouteAccess: false without a user or role, checkRoleAccess for an unmapped route, and for a mapped route exactly hasPermission with the route's category and action |
| PrivilegeUtils.CanAccessNavItem | frontend/src/utils/privilegeUtils.js:190-205 | canAccessNavItem: true without a requirement or for a listed role; with no route exactly the role test; a route the user may access admits; a refusal means no listed role matched |
| Csrf.ParsePiece | backend/middleware/csrf.js:6 | a trimmed piece splits at its first `=`: the name holds no `=`, name + "=" + value gives the piece back, and a piece without `=` is a name with an empty value |
| Csrf.EntriesOf | backend/middleware/csrf.js:3-6 | the parsed pieces of the header; no entry's name holds `=` |
| Csrf.LastPieceWins | backend/middleware/csrf.js:5-9 | a cookie is present exactly when some piece with a non-empty name carries it, and its value is the value of the last such piece |
| Csrf.ParseCookies | backend/middleware/csrf.js:1-12 | parseCookies: {} for a missing or empty header, otherwise the cookies of the pieces stored in order |
| Csrf.CsrfProtection | backend/middleware/csrf.js:14-38 | csrfProtection: GET/HEAD/OPTIONS and requests with an Authorization header pass; a request is refused exactly when it also has a non-empty auth_token cookie and no non-empty x-csrf-token equal to a non-empty csrf_token cookie |
| Csrf.CookieAuthNeedsEcho | backend/middleware/csrf.js:25-37 | a cookie-authenticated state-changing request passes only when it echoes the csrf_token cookie in the header |
| Csrf.NoCookieHeaderPasses | backend/middleware/csrf.js:3-28 | a request without any Cookie header is never refused |
| HafsLoader.Classify | backend/scripts/load-hafs-smart-v8.js:44-49 | a raw field is null exactly when empty or NULL in any case, a number exactly when it matches `-?\d+(\.\d+)?`, and text otherwise |
| HafsLoader.NumeralIsNotNull | backend/scripts/load-hafs-smart-v8.js:45-47 | a numeral is never mistaken for NULL |
| HafsLoader.TupleValues | backend/scripts/load-hafs-smart-v8.js:40-49 | one converted value per raw field |
| HafsLoader.ParseValuesTuple | backend/scripts/load-hafs-smart-v8.js:11-50 | parseValuesTuple's character loop with its index skip yields exactly TupleValues |
| HafsLoader.TrimAll | backend/scripts/load-hafs-smart-v8.js:32-41 | every piece trimmed, one for one |
| HafsLoader.NoQuotesSplitsOnCommas | backend/scripts/load-hafs-smart-v8.js:16-42 | without quotes the parser is split(',') with every field trimmed, dropping only an empty last field |
| HafsLoader.ScanComma | backend/scripts/load-hafs-smart-v8.js:31-35 | outside a string a comma ends the field: the trimmed field is pushed and a new one starts |
| HafsLoader.ScanPlainChar | backend/scripts/load-hafs-smart-v8.js:37 | any other character outside a string is appended to the field |
| HafsLoader.ScanWithoutQuotes | backend/scripts/load-hafs-smart-v8.js:16-38 | on quote-free text the loop ends with the trimmed comma-separated pieces and the text after the last comma |
| HafsLoader.ScanInString | backend/scripts/load-hafs-smart-v8.js:31-37 | inside a string every character but the quote is kept, a comma included |
| HafsLoader.InStringRun | backend/scripts/load-hafs-smart-v8.js:31-37 | inside a string a quote-free run is appended whole |
| HafsLoader.QuotedRunKept | backend/scripts/load-hafs-smart-v8.js:20-37 | a quoted run without quotes inside is kept whole, commas included, and the quotes are dropped |
| HafsLoader.ScanQuoteOpens | backend/scripts/load-hafs-smart-v8.js:26-29 | outside a string a quote opens one |
| HafsLoader.ScanQuoteCloses | backend/scripts/load-hafs-smart-v8.js:20-29 | inside a string a quote not followed by a quote closes it |
| HafsLoader.DoubledQuoteIsOneQuote | backend/scripts/load-hafs-smart-v8.js:20-24 | inside a string a doubled quote stands for one quote |
| HafsLoader.ConcatOfElevens | backend/scripts/load-hafs-smart-v8.js:88-95 | rows of eleven values laid end to end: element k is column k % 11 of row k / 11 |
| HafsLoader.RowPlaceholders | backend/scripts/load-hafs-smart-v8.js:89-93 | each row gets eleven placeholders |
| HafsLoader.InsertBatch | backend/scripts/load-hafs-smart-v8.js:70-114 | insertBatch issues nothing for an empty batch, otherwise one statement with a placeholder group per row and the rows' values in order |
| HafsLoader.PlaceholdersNumberTheValues | backend/scripts/load-hafs-smart-v8.js:87-99 | for rows of eleven values the placeholders read in order are exactly $1..$n, and $k is bound to column (k−1) % 11 of row (k−1) / 11 |
| HafsLoader.SkipSpaces | backend/scripts/load-hafs-smart-v8.js:137 | `\s*`: the first non-space position from i on |
| HafsLoader.ValuesOpen | backend/scripts/load-hafs-smart-v8.js:137 | `VALUES\s*\(` found from a position ends at an opening parenthesis |
| HafsLoader.MatchTuple | backend/scripts/load-hafs-smart-v8.js:137-141 | the captured tuple text is shorter than the buffer without its closing `);` |
| HafsLoader.Accept | backend/scripts/load-hafs-smart-v8.js:131-145 | a line without VALUES changes nothing; a line that completes a tuple empties the buffer and yields exactly eleven values |
| HafsLoader.RowsFrom | backend/scripts/load-hafs-smart-v8.js:131-145 | every row the lines yield has eleven values |
| HafsLoader.RowsFromStep | backend/scripts/load-hafs-smart-v8.js:131-145 | the rows from line i on are line i's row, if any, then the rows of the following lines |
| HafsLoader.Push | backend/scripts/load-hafs-smart-v8.js:145-150 | pushing a row and flushing a full batch of 200 keeps the rows in order, every flushed batch full and the count of inserted rows exact |
| HafsLoader.Load | backend/scripts/load-hafs-smart-v8.js:116-159 | the loop hands insertBatch exactly the 11-value rows of the dump in order, in batches of 200 but the last, and counts them all |
| QuranRoute.GetSource | backend/routes/quran.js:6-11 | getSource: a missing or empty source means hafs; otherwise uthmani exactly when the source lower-cases to "uthmani", hafs exactly when it lower-cases to "hafs" and none for anything else |
| QuranRoute.NumberInt | backend/routes/quran.js:15-70 | Number() restricted to integers: a blank string is 0 |
| QuranRoute.NumberIntOfNatToString | backend/routes/quran.js:15-16 | the decimal rendering of a number reads back as that number |
| QuranRoute.ParseRange | backend/routes/quran.js:13-18 | parseRange: a value only for a given integer ≥ 1, and then exactly that integer |
| QuranRoute.AddClause | backend/routes/quran.js:200-223 | pushing a parameter and a clause numbered by the new parameter count keeps every placeholder naming an existing parameter (also lines 123-137) |
| QuranRoute.SurahQuery | backend/routes/quran.js:121-141 | the one-surah query is well numbered and binds $1 to the surah |
| QuranRoute.SurahQuerySelectsBounds | backend/routes/quran.js:121-164 | the one-surah query selects exactly the ayahs of that surah within the bounds given |
| QuranRoute.SurahRequest | backend/routes/quran.js:63-82 | GET /surah/:n: 400 for a bad source exactly, and the query runs exactly for a valid source, an integer surah ≥ 1 and ayah bounds that are valid when given and ordered |
| QuranRoute.RangeQuery | backend/routes/quran.js:197-228 | the cross-surah query is well numbered and binds $1 and $2 to the surah bounds |
| QuranRoute.RangeQueryIsLexicographic | backend/routes/quran.js:197-260 | the cross-surah query selects exactly the (surah, ayah) positions between the two bounds in reading order, an absent ayah bound leaving that end open |
| QuranRoute.RangeRequest | backend/routes/quran.js:176-195 | GET /range: 400 for a bad source exactly; the query runs exactly for a valid source, both surah bounds valid and ordered, and each ayah bound valid when given |
| GradesRoute.SecondPart | backend/routes/grades.js:44 | the second half of the split exists exactly when the reference contains ':' and holds no ':' itself |
| GradesRoute.ParseStart | backend/routes/grades.js:43-47 | the parsed surah is the text before the first ':' and the ayah (`parseInt(..) \|\| 1`) is never 0 |
| GradesRoute.ParseEnd | backend/routes/grades.js:50-55 | the parsed surah is the text before the first ':'; the ayah is null exactly for the "end" marker and otherwise never 0 |
| GradesRoute.PostStartRef | backend/routes/grades.js:213-216 | a given start reference wins; the result is null exactly when neither a reference nor a surah is given |
| GradesRoute.PostEndRef | backend/routes/grades.js:214-217 | a given end reference wins; the result is null exactly when neither a reference nor a surah is given |
| GradesRoute.PutRef | backend/routes/grades.js:322-323 | a given reference wins; otherwise a reference is built exactly when both surah and ayah are truthy |
| GradesRoute.PostStartRoundTrip | backend/routes/grades.js:43-47 | the start reference POST builds parses back, with the listing's parser, to the posted surah and ayah (1 when none) (also lines 213-216) |
| GradesRoute.PostEndRoundTrip | backend/routes/grades.js:50-55 | the end reference POST builds parses back to the posted surah and ayah, or to null ("end") when no ayah was posted (also lines 214-217) |
| GradesRoute.PutAgreesWithPost | backend/routes/grades.js:322 | when surah and ayah are both given PUT writes the same start reference as POST (also line 216) |
| GradesRoute.ListGrade | backend/routes/grades.js:39-61 | a listed grade keeps its row, mirrors `grade_value` as `score`, and has parsed references exactly when the stored ones are present |
| GradesRoute.GradeValueAsWritten | backend/routes/grades.js:210 | `grade_value \|\| score`: a non-zero grade value is kept, a missing or zero one falls through to `score` (also line 321) |
| GradesRoute.ZeroGradeErased | backend/routes/grades.js:210 | a grade value of 0 with no legacy score is stored as null (also line 321) |
| GradesRoute.GradeValue | backend/routes/grades.js:210 | a present grade value, 0 included, is stored; `score` only when it is absent (also line 321) |
| GradesRoute.GradeValueDiffersOnlyAtZero | backend/routes/grades.js:210 | the corrected and the as-written value differ only for a grade value of 0 (also line 321) |
| GradesRoute.MaxGradeOr100 | backend/routes/grades.js:239-247 | `max_grade \|\| 100`: a missing or zero maximum becomes 100 (also line 335) |
| GradesRoute.ReviseAll | backend/routes/grades.js:228-239 | an UPDATE revises every addressed row, keeps every other row and keeps the order (also lines 325-335) |
| GradesRoute.DeleteById | backend/routes/grades.js:397 | the DELETE keeps exactly the rows with another id |
| GradesRoute.FirstHit | backend/routes/grades.js:220-226 | no index is returned exactly when no row is addressed; a returned index addresses a row (also line 337) |
| GradesRoute.UpsertStores | backend/routes/grades.js:220-248 | after POST every row of the key holds the posted values and every row of another key is unchanged, with at most one row added |
| GradesRoute.UpsertKeepsKeysUnique | backend/routes/grades.js:220-248 | POST never creates a second row for a (student, course, semester) key |
| GradesRoute.NullSemesterAlwaysInserts | backend/routes/grades.js:220-247 | with no semester the `semester_id = $3` check never matches, so POST always appends a row |
| GradesRoute.UpsertIdempotent | backend/routes/grades.js:220-248 | posting the same grade twice leaves the table as one post did |
| GradesRoute.TeacherGradesOnlyOwnStudents | backend/routes/grades.js:163-207 | a teacher passes only for a student enrolled in a class the teacher is actively assigned to; admins always pass; other roles never |
| GradesRoute.GradesTable.constructor | backend/routes/grades.js:160-258 | an empty table with consistent ids |
| GradesRoute.GradesTable.Post | backend/routes/grades.js:160-258 | 403 unless the role and teacher checks pass, with nothing changed; otherwise the table becomes the upsert and the saved row is in it; ids stay consistent, and keys that were unique stay unique |
| GradesRoute.GradesTable.Put | backend/routes/grades.js:261-351 | saved exactly for a writer role and an existing row whose stored class and student pass the teacher checks; the row with the id is revised with PUT's values; nothing changes otherwise; keys that were unique stay unique |
| GradesRoute.GradesTable.Delete | backend/routes/grades.js:354-408 | deleted exactly under PUT's conditions, removing the rows with the id; nothing changes otherwise; keys that were unique stay unique |
| GradesRoute.ReviseAllKeepsConsistent | backend/routes/grades.js:229-238 | an UPDATE of the grade columns keeps ids distinct and below the counter, and keeps unique keys unique (also lines 325-334) |
| GradesRoute.AppendKeepsConsistent | backend/routes/grades.js:243-248 | the inserted row with the next id keeps ids distinct and below the advanced counter |
| GradesRoute.DeleteKeepsConsistent | backend/routes/grades.js:397 | deleting by id keeps ids distinct and below the counter |
| GradesRoute.DeleteKeepsKeysUnique | backend/routes/grades.js:397 | deleting by id keeps unique keys unique |
| ClassesRoute.SurahIdFromNameIsMushafOrder | backend/routes/classes.js:11-37 | every surah's name maps to its mushaf id, and only surah names map to an id |
| ClassesRoute.EndPointOf | backend/routes/classes.js:66-75 | a grade contributes a point only with a known surah id and a non-zero end ayah |
| ClassesRoute.EndPointNamesItsSurah | backend/routes/classes.js:66-75 | a contributed point comes from two two-part references with a known start surah, the end surah's name and the parsed end ayah |
| ClassesRoute.PointsAt | backend/routes/classes.js:65-81 | the i-th point is the i-th grade's end point |
| ClassesRoute.BestIsMostAdvanced | backend/routes/classes.js:62-88 | the selected point is one of the grades' points, no point is further along (lower surah, or same surah and higher ayah), and there is none exactly when no grade has a point |
| ClassesRoute.BestOrderFree | backend/routes/classes.js:45-81 | the selection does not depend on the order the grades are read in |
| ClassesRoute.MostAdvanced | backend/routes/classes.js:62-81 | the loop computes the most advanced point of the grades |
| ClassesRoute.ProgressAfter | backend/routes/classes.js:84-98 | with no valid point progress is unchanged; otherwise only the student's entry becomes the most advanced point |
| ClassesRoute.NumericReferenceIgnored | backend/routes/classes.js:66-75 | a reference whose surah is written as a number contributes no point |
| ClassesRoute.AddGrade | backend/routes/classes.js:584-642 | 400 exactly for a falsy student or course or an undefined grade value, 404 exactly for an unknown class; the inserted row takes the class's semester and the given value, progress is refreshed exactly for a memorisation grade with both references, and today's attendance row is upserted present with a grade, keeping only its explicit flag |
| ClassesRoute.GradeEntryRow | backend/routes/classes.js:621-642 | the upserted attendance row is present, graded and carries the grade-entry note; it is explicit exactly when the stored row was |
| ClassesRoute.GradeEntryOverridesAbsence | backend/routes/classes.js:621-642 | a grade entered on a class marks a day present even where the automatic marker keeps an explicit absence; both leave it graded with the same explicit flag |
| ClassesRoute.RolesFor | backend/routes/classes.js:825-847 | exactly the listed ids that are teachers get a role, "primary" exactly for the primary id |
| ClassesRoute.OnePrimary | backend/routes/classes.js:827-833 | at most one teacher is primary; with no primary given a listed teacher first in the list is primary; a primary id not in the list leaves every teacher secondary |
| ClassesRoute.Assignments.constructor | backend/routes/classes.js:807-860 | no assignments |
| ClassesRoute.Assignments.AssignTeachers | backend/routes/classes.js:807-860 | 404 for an unknown class with nothing changed; otherwise the class's assignments are replaced by the roles of the listed teachers and the count of listed ids is returned |
| TeachersRoute.LikeAnything | backend/routes/teachers.js:300-308 | `LIKE '%'` accepts every string |
| TeachersRoute.LikeLiteralFront | backend/routes/teachers.js:284-300 | a LIKE pattern opening with `%`-free text accepts exactly the strings whose front fits that text (with `_` a wildcard) and whose rest fits the rest |
| TeachersRoute.LikeBarSomewhere | backend/routes/teachers.js:305 | `LIKE '%\|%'` holds exactly when the string contains a '\|' |
| TeachersRoute.LikePrefixTests | backend/routes/teachers.js:300-308 | the listing's two LIKE tests hold exactly for a prefixed text, and for a prefixed text with a '\|' after the prefix |
| TeachersRoute.Run | backend/routes/teachers.js:301 | the greedy `[^\|]+` run holds no '\|' and stops only at a '\|' or at the end |
| TeachersRoute.SchoolCapture | backend/routes/teachers.js:301 | a captured school is non-empty and holds no '\|' |
| TeachersRoute.QualsCapture | backend/routes/teachers.js:306 | a captured qualifications text is non-empty |
| TeachersRoute.Decode | backend/routes/teachers.js:299-312 | a NULL column decodes to two NULLs and a decoded school holds no '\|' |
| TeachersRoute.Encode | backend/routes/teachers.js:104-132 | the stored text always begins with "SCHOOL_ID:" |
| TeachersRoute.EncodedFront | backend/routes/teachers.js:301 | an encoded text is prefixed and its run after the prefix is exactly the school id (also line 104) |
| TeachersRoute.DecodeEncode | backend/routes/teachers.js:299-312 | decoding what registration stored gives back the school and the non-empty qualifications (NULL when none) (also line 104) |
| TeachersRoute.UnprefixedIsRaw | backend/routes/teachers.js:307-310 | an unprefixed text is listed as it is, with no school |
| TeachersRoute.PrefixFilterMatchesLongerIds | backend/routes/teachers.js:283-286 | the `LIKE 'SCHOOL_ID:<id>%'` filter also accepts a row of a school whose id merely starts with the requested one |
| TeachersRoute.SchoolFilterExact | backend/routes/teachers.js:282-302 | the intended filter accepts an encoded row exactly when its school is the requested one |
| TeachersRoute.UpdatedQualifications | backend/routes/teachers.js:385-392 | with a school the text is re-encoded from the given school and qualifications; without one the given qualifications are stored as they are |
| TeachersRoute.UpdateLosesTheOtherHalf | backend/routes/teachers.js:385-392 | an update with qualifications but no school drops the row's school, and one with a school but no qualifications drops the stored qualifications |
| TeachersRoute.ParseUserType | backend/routes/teachers.js:101-143 | exactly the four staff types are recognised (also lines 258-277) |
| TeachersRoute.Register | backend/routes/teachers.js:80-145 | 400 exactly for an unknown school, an abort exactly for an unknown type, otherwise one row in the type's table; every type but admin stores the encoded school |
| TeachersRoute.RegisteredStaffListUnderSchool | backend/routes/teachers.js:299-302 | registered non-admin staff decode to their own school (also lines 104-137) |
| TeachersRoute.KeepRows | backend/routes/teachers.js:280-292 | the listing keeps exactly the rows passing the school and active-flag filters |
| TeachersRoute.ListedType | backend/routes/teachers.js:255 | a missing `user_type` lists teachers; a given one is used as it is |
| TeachersRoute.ListUsers | backend/routes/teachers.js:253-330 | 400 exactly for an unknown type, teachers when no type is given; the response key is "teachers" or "<type>s" and the rows are exactly those of the type's table that pass the filters |
| AttendanceRoute.AttendanceRate | backend/routes/attendance.js:193 | the rounded percentage lies in 0..100, is 0 with no days or no present days and 100 when every day is present (also line 46) |
| AttendanceRoute.StudentSummary | backend/routes/attendance.js:43-55 | the total is the number of rows, present and absent days count the rows by `is_present` and add up to the total, and the percentage is in 0..100 |
| AttendanceRoute.DayStats | backend/routes/attendance.js:154-180 | one working day counted per day, each present or absent, with explicit and grade-based days among the present ones |
| AttendanceRoute.PresentDaysAreRecordedPresent | backend/routes/attendance.js:163-177 | the present days are exactly the days whose record says present |
| AttendanceRoute.CountWorkingDays | backend/routes/attendance.js:153-184 | the day loop ends with the statistics of exactly the working days from the start through the last day |
| AttendanceRoute.AttendanceStats | backend/routes/attendance.js:106-195 | 404 exactly without the semester; otherwise the statistics of the working days up to the earlier of the end date and now, and their rate |
| AttendanceRoute.MarkedRow | backend/routes/attendance.js:204-236 | the marked row has the given presence and notes, is explicit exactly when `is_explicit` is true, and keeps the replaced row's grade flag |
| AttendanceRoute.GradedRow | backend/routes/attendance.js:265-290 | a graded row has a grade, keeps its explicit flag and notes, is present unless explicitly marked absent, and a new one is present, implicit and without notes |
| AttendanceRoute.GradedStudents | backend/routes/attendance.js:255-265 | the selected student ids are distinct and are exactly the students of the grades the query selects |
| AttendanceRoute.GradedStudentsMembers | backend/routes/attendance.js:255-265 | deduplicating the projected student ids keeps exactly the students of the selected grades |
| AttendanceRoute.Project | backend/routes/attendance.js:265 | the student ids of the grades, in order |
| AttendanceRoute.GradeAllEffect | backend/routes/attendance.js:265-290 | after the loop every graded student's key holds a graded row derived from its old row and every other row is unchanged |
| AttendanceRoute.GradeAllStep | backend/routes/attendance.js:265-290 | one more student: their key is graded from its original row and counted when it had none |
| AttendanceRoute.KeysFor | backend/routes/attendance.js:265-280 | one key per student, for this semester, class and date |
| AttendanceRoute.KeysForDistinct | backend/routes/attendance.js:265-280 | distinct students give distinct keys |
| AttendanceRoute.AsWrittenMarksOtherClass | backend/routes/attendance.js:255-261 | the query as written selects a student graded only in another class that day, who is then marked present in this class |
| AttendanceRoute.IntendedMarksOnlyGradedStudents | backend/routes/attendance.js:255-290 | with the intended selection every row inserted from grades is for a student graded in this class on that date (also lines 364-367) |
| AttendanceRoute.NewAbsences | backend/routes/attendance.js:354-380 | one absence for exactly the candidates with neither a row nor a grade that day |
| AttendanceRoute.NewAbsencesStep | backend/routes/attendance.js:354-380 | one more candidate is inserted exactly when it has no row and no grade |
| AttendanceRoute.NewAbsencesSound | backend/routes/attendance.js:354-425 | an inserted absence never replaces a row and stands for a candidate with no grade that day |
| AttendanceRoute.DayKeysStep | backend/routes/attendance.js:354-393 | one more student adds one key for the day |
| AttendanceRoute.AbsentLoopCovers | backend/routes/attendance.js:389 | the `currentDate < maxDate` loop reaches exactly the days up to its last day |
| AttendanceRoute.LoopBoundsDiffer | backend/routes/attendance.js:148-154 | for a semester that ended before now the statistics loop counts its last day and the absent marker stops the day before (also lines 386-389) |
| AttendanceRoute.EnrolledStudents | backend/routes/attendance.js:325-330 | exactly the students enrolled in the class |
| AttendanceRoute.AttendanceTable.constructor | backend/routes/attendance.js:204-245 | the table holds the given rows |
| AttendanceRoute.AttendanceTable.Mark | backend/routes/attendance.js:204-245 | 400 with nothing changed for a missing semester, class, student or date; otherwise the key's row becomes the marked row |
| AttendanceRoute.AttendanceTable.AutoMarkFromGrades | backend/routes/attendance.js:246-300 | 400 with nothing changed for a missing semester, class or date; otherwise every graded student's key is graded and the inserted rows are counted |
| AttendanceRoute.AttendanceTable.ConsiderAbsence | backend/routes/attendance.js:356-380 | inserts an absence exactly when there is neither a row nor a grade, and counts it |
| AttendanceRoute.AttendanceTable.MarkDayAbsences | backend/routes/attendance.js:354-380 | the loop over the enrolled students adds the day's new absences and keeps the count equal to the rows added |
| AttendanceRoute.AttendanceTable.AutoMarkAbsent | backend/routes/attendance.js:302-436 | 400 for a missing semester or class, 404 without the semester, both with nothing changed; otherwise exactly the new absences of the candidate days are inserted and counted |
| AttendanceRoute.AttendanceTable.MarkSemesterAbsences | backend/routes/attendance.js:384-425 | the full-semester loop adds the new absences of every working day from the start to the day before `maxDate` and counts them |
| AttendanceRoute.SemesterCandidatesEmpty | backend/routes/attendance.js:389 | an empty day range has no candidates |
| AttendanceRoute.SemesterCandidatesStep | backend/routes/attendance.js:389-395 | a working day adds its students' keys to the range's candidates |
| DailyReportsRoute.ReportPermission | backend/routes/dailyReports.js:7-13 | passes exactly for admin, administrator and supervisor |
| DailyReportsRoute.TotalsOf | backend/routes/dailyReports.js:184-198 | the class count is the number of class reports, at most that many have a teacher, and new students stay 0 |
| DailyReportsRoute.TotalsAppend | backend/routes/dailyReports.js:184-198 | the totals of two lists together are the field-by-field sums of their totals |
| DailyReportsRoute.ComputeTotals | backend/routes/dailyReports.js:184-198 | the `forEach` accumulation computes the totals of the class reports (also lines 279-293) |
| DailyReportsRoute.DailyReports.constructor | backend/routes/dailyReports.js:155-256 | no reports |
| DailyReportsRoute.DailyReports.Create | backend/routes/dailyReports.js:155-256 | 403 for other roles, 400 without school or date, 400 exactly when the school already has a report that day; otherwise a new report with its computed totals, keeping one report per school and day |
| DailyReportsRoute.DailyReports.Update | backend/routes/dailyReports.js:259-355 | 404 exactly for an unknown report; otherwise notes, totals and class reports are replaced and school, date and reporter stay |
| DailyReportsRoute.DailyReports.Delete | backend/routes/dailyReports.js:358-372 | deleted exactly for a permitted role and an existing report, which is removed; nothing changes otherwise |
| DailyReportsRoute.FillCounts | backend/routes/dailyReports.js:434-446 | no records: nobody present and everyone absent; fewer records than enrolled: the missing students are added to the absent; otherwise the counts stay |
| DailyReportsRoute.FillAccountsForEveryone | backend/routes/dailyReports.js:434-446 | with consistent counts the auto-fill accounts for every enrolled student exactly once and keeps the present count |
| DailyReportsRoute.FillClass | backend/routes/dailyReports.js:410-470 | a filled class report keeps the enrolment and applies the auto-fill rule |
| DailyReportsRoute.FillAll | backend/routes/dailyReports.js:400-472 | one filled report per class, in order |
| DailyReportsRoute.WithTeacher | backend/routes/dailyReports.js:483 | at most one teacher per class report |
| DailyReportsRoute.SummaryIsTotals | backend/routes/dailyReports.js:478-484 | the auto-fill summary equals the totals a report built from the same class reports stores (also lines 184-198) |
| DailyReportsRoute.PageCount | backend/routes/dailyReports.js:97 | `Math.ceil(total / limit)`: a non-negative page count exactly when the limit is positive, JSON null (`None`) for a limit of 0 |
| DailyReportsRoute.PagesCoverRows | backend/routes/dailyReports.js:54-97 | every row falls on a page between 1 and the page count, and no page after those holds a row |
| PointsRoute.ValidPointsAreHalves | backend/routes/points.js:261-264 | the range check accepts exactly the eleven values 0, 0.5, …, 5 (also lines 373-376) |
| PointsRoute.GiveDecision | backend/routes/points.js:243-317 | the upsert goes ahead exactly for a giver role, complete fields, points in range, a passing class check and an active enrolled student; other roles get 403 and out-of-range points 400 |
| PointsRoute.MayView | backend/routes/points.js:60-86 | a student sees only their own points, a teacher only those of a student they actively teach, any other role every student's |
| PointsRoute.PointsTable.constructor | backend/routes/points.js:243-357 | no points |
| PointsRoute.PointsTable.Give | backend/routes/points.js:243-357 | a refusal returns its reply with nothing changed; otherwise the key's row (giver = signed-in user) is written, updating the existing row exactly when the key already had one, so keys stay unique |
| PointsRoute.PointsTable.Change | backend/routes/points.js:359-415 | 403 for other roles, 400 out of range; saved exactly when the row exists and a teacher owns it, and then only points and notes change |
| PointsRoute.PointsTable.Remove | backend/routes/points.js:418-455 | removed exactly for a giver role and an existing row a teacher owns; nothing changes otherwise |
| StudentsRoute.TenDigitsAreNumeric | backend/routes/students.js:17-21 | ten digits have length 10 and pass `isNumeric` |
| StudentsRoute.ValidPassesAsWritten | backend/routes/students.js:15-46 | every registration the intended ten-digit rules accept passes the chain as written |
| StudentsRoute.SignedIdPasses | backend/routes/students.js:17-21 | the chain as written accepts the signed id "+123456789", which is not ten digits |
| StudentsRoute.DecimalIdPasses | backend/routes/students.js:17-21 | the chain as written accepts "12345.6789", whose point makes it not ten digits |
| StudentsRoute.NonDigitIdsPass | backend/routes/students.js:17-45 | the chain as written accepts the ten-character ids "+123456789" and "12345.6789", which are not ten digits |
| StudentsRoute.OrNull | backend/routes/students.js:551-564 | `x \|\| null` is NULL exactly for a missing or empty text and the text otherwise (also lines 81-84) |
| StudentsRoute.NumberOrNull | backend/routes/students.js:601-616 | `x \|\| null` for a number is NULL exactly for a missing value or 0 |
| StudentsRoute.NewUser | backend/routes/students.js:76-84 | the inserted user is inactive, with e-mail and phone stored as `x \|\| null` |
| StudentsRoute.NewStudent | backend/routes/students.js:86-116 | the inserted student is 'inactive', at the given school level, and records the parent id exactly when that parent already exists |
| StudentsRoute.NewLinks | backend/routes/students.js:86-107 | a relationship row is written exactly when a parent id is given, whether or not the parent exists yet |
| StudentsRoute.StatusSetsActive | backend/routes/students.js:565-569 | whenever a status is given the user's `is_active` becomes whether that status is 'active' |
| StudentsRoute.ActivationRefused | backend/routes/students.js:475-497 | activation is refused only for status 'active' without a school or class in the request; it is refused when the student's rows show no school and allowed when the first row has one or there is no such student |
| StudentsRoute.ReassignedEnrolment | backend/routes/students.js:630-660 | afterwards the student is enrolled in a class exactly when it is the target and no row of another status holds that pair |
| StudentsRoute.ReassignedKeeps | backend/routes/students.js:632 | rows of other students and the student's rows of another status are kept |
| StudentsRoute.Target | backend/routes/students.js:635-660 | a given class is the target; with neither class nor school there is none |
| StudentsRoute.UpdateDecision | backend/routes/students.js:459-524 | the update goes ahead exactly for a well-formed e-mail and phone, an allowed activation and an existing student; a bad e-mail answers 400 first |
| StudentsRoute.StudentStore.constructor | backend/routes/students.js:49-147 | empty tables over the given parents |
| StudentsRoute.StudentStore.Register | backend/routes/students.js:49-147 | 400 for a broken rule, 400 exactly when the id or the e-mail is taken, otherwise the inactive user, the student and the relationship rows are added together; nothing changes otherwise |
| StudentsRoute.StudentStore.Update | backend/routes/students.js:459-693 | a refused check writes nothing; otherwise each UPDATE is built exactly from the provided fields and runs only when there is one, the rows take those values, and the enrolments are replaced when a class or school is named |
| StudentsRoute.StudentStore.ApplyUpdate | backend/routes/students.js:528-693 | after the checks pass: the users and students UPDATEs are built from exactly the provided fields and exist only when a field is given, each row takes the given values, the enrolments are replaced only when a class or school is named, and parents and links are untouched |
| ProfileRoute.ChangeRequestIsStrongAndConfirmed | backend/routes/profile.js:12-24 | the change-password rules accept exactly a non-empty current password and a confirmed new password of six or more characters with a letter and a digit |
| ProfileRoute.NothingProvided | backend/routes/profile.js:140-171 | the update has no field exactly when none of phone, e-mail, address and date of birth is given |
| ProfileRoute.Profiles.constructor | backend/routes/profile.js:10-198 | the given passwords and rows |
| ProfileRoute.Profiles.ChangePassword | backend/routes/profile.js:10-87 | 400 on a broken rule, 404 for an unknown user; the password changes exactly when the current one matches and the new one differs, and nothing else changes |
| ProfileRoute.Profiles.Update | backend/routes/profile.js:115-198 | 400 on a broken rule, for an e-mail another user has, or with no field; otherwise the UPDATE binds the provided fields from `$1` with the id last and the row takes them |
| DatabaseRoute.TextColumns | backend/routes/database.js:73-77 | at most one name per column |
| DatabaseRoute.TextColumnsMembers | backend/routes/database.js:73-77 | a name is searched exactly when some column of that name has a text type |
| DatabaseRoute.BuildSelect | backend/routes/database.js:25-100 | 404 with no query exactly for a table the catalogue does not list; otherwise, with a search, one ILIKE per text column binding the pattern at `$1..$n`; LIMIT and OFFSET take the next two placeholders and bind the limit and `(page-1)*limit` |
| DatabaseRoute.TotalPages | backend/routes/database.js:93 | for a positive limit the page count is the least number of pages holding every row |
| DatabaseRoute.RowOnOnePage | backend/routes/database.js:29-93 | each row lies on exactly one page between 1 and the page count |
| DatabaseRoute.InsertColumns | backend/routes/database.js:131 | the INSERT columns are exactly the body's fields with a value other than '' |
| DatabaseRoute.KeyNeverSet | backend/routes/database.js:190 | the primary key is never among the SET items |
| DatabaseRoute.Insert | backend/routes/database.js:115-153 | 404 for an unknown table, 400 exactly with nothing to insert; otherwise each column binds its value at consecutive placeholders |
| DatabaseRoute.Update | backend/routes/database.js:155-216 | 404 for an unknown table, 400 without a primary key or with nothing to set; otherwise the SET items bind from `$1` and the key follows; 404 when no row had that key |
| DatabaseRoute.Delete | backend/routes/database.js:218-275 | done exactly for a known table with a primary key whose row was deleted; 400 exactly for a foreign-key violation; 404 for an unknown table |
| SqlParams.Provided | backend/routes/profile.js:140-166 | the provided fields are at most the fields and are empty exactly when no field is given |
| SqlParams.ProvidedMembers | backend/routes/profile.js:140-166 | a column with a value is provided exactly when the request gives that field that value |
| SqlParams.Values | backend/routes/profile.js:140-166 | the pushed values, in order |
| SqlParams.BindsExtend | backend/routes/profile.js:173-174 | pushing the id after the field values keeps every placeholder bound |
| SqlParams.BindsSnoc | backend/routes/profile.js:140-144 | one more provided field gets the next placeholder and its value |
| SqlParams.ProvidedSnoc | backend/routes/profile.js:140-166 | one more field extends the provided list exactly when it is given |
| SqlParams.NumberFields | backend/routes/students.js:531-569 | each provided field gets a placeholder numbered on from the existing parameters and its value at that position; the counter ends one past the last |
| SqlParams.BuildUpdate | backend/routes/profile.js:140-181 | a query exactly when some field is provided; its SET items bind the fields from `$1` and the WHERE placeholder selects the key |
| SqlParams.AssignSets | backend/routes/students.js:574-582 | a column set last at position i ends with that value |
| SqlParams.AssignKeeps | backend/routes/students.js:574-582 | a column the update does not name keeps its value |
| SqlParams.ProvidedColumns | backend/routes/profile.js:140-166 | every provided column comes from a given field |
| SqlParams.ProvidedAll | backend/routes/profile.js:140-166 | when every field is given all are provided, in order |
| ForgotPasswordRoute.LookupFollowsShape | backend/routes/forgotPassword.js:64-93 | for an accepted identifier the lookup is by e-mail exactly when it has an address's shape and by id exactly when it is ten digits |
| ForgotPasswordRoute.FirstUsableFrom | backend/routes/forgotPassword.js:167-178 | none exactly when no row from `from` on is usable; otherwise the first usable row from there |
| ForgotPasswordRoute.FirstUsable | backend/routes/forgotPassword.js:167-178 | the row the handlers take is the first one with the token, unused, unexpired and of an existing user; none exactly when there is no such row (also lines 247-255) |
| ForgotPasswordRoute.Consumed | backend/routes/forgotPassword.js:196-205 | the token and every other token of the user become used, and nothing else changes |
| ForgotPasswordRoute.ConsumedLeavesNothing | backend/routes/forgotPassword.js:190-205 | after a reset the token can never be used again and the user has no usable token left |
| ForgotPasswordRoute.Kept | backend/routes/forgotPassword.js:282-287 | the clean-up keeps at most the rows it had |
| ForgotPasswordRoute.KeptMembers | backend/routes/forgotPassword.js:282-287 | a row survives the clean-up exactly when it is unused and not expired |
| ForgotPasswordRoute.CleanupKeepsUsable | backend/routes/forgotPassword.js:282-287 | the clean-up removes no token a reset could still use, then or later (also lines 167-178) |
| ForgotPasswordRoute.LastAt | backend/routes/forgotPassword.js:269 | the index of the last '@', none exactly when there is none |
| ForgotPasswordRoute.LastAtOfSplit | backend/routes/forgotPassword.js:269 | the last '@' of local@domain, with no '@' in the domain, follows the local part |
| ForgotPasswordRoute.MaskHidesLocalPart | backend/routes/forgotPassword.js:269 | an address with one '@' after two characters or more shows its first two characters, `***`, the '@' and the domain |
| ForgotPasswordRoute.MaskLeavesShortLocalPart | backend/routes/forgotPassword.js:269 | with the only '@' in the first two characters the address is shown as it is |
| ForgotPasswordRoute.ResetService.constructor | backend/routes/forgotPassword.js:62-287 | the given accounts and passwords and no tokens |
| ForgotPasswordRoute.ResetService.Request | backend/routes/forgotPassword.js:62-128 | 400 for an invalid identifier; otherwise the same reply whether or not an account matches, and a thirty-minute token is stored exactly when an active account matches |
| ForgotPasswordRoute.ResetService.ResetPassword | backend/routes/forgotPassword.js:140-215 | reset exactly for a token, a strong confirmed password and a usable row; the owner's password is replaced and their tokens used up; nothing changes otherwise |
| ForgotPasswordRoute.ResetService.Cleanup | backend/routes/forgotPassword.js:282-287 | only the unused unexpired tokens remain |
| ForgotPasswordRoute.ResetService.Verify | backend/routes/forgotPassword.js:232-271 | 400 without a token or exactly when no row is usable; 500 exactly when the first usable row's owner has no address (the mask is applied to null); otherwise the reply is the masked address of the first usable row's owner |
| ParentsRoute.ChildIdList | backend/routes/parents.js:110-116 | an array is taken as it is, a string is split on ',' and each piece trimmed, anything else gives no ids |
| ParentsRoute.TrimAll | backend/routes/parents.js:118 | each id trimmed, in order |
| ParentsRoute.KeepTen | backend/routes/parents.js:118 | the kept ids are at most the given ones |
| ParentsRoute.KeepTenMembers | backend/routes/parents.js:118 | an id is kept exactly when it is given and has ten characters |
| ParentsRoute.KeepTenOfTen | backend/routes/parents.js:118 | a list of ten-character ids is kept whole |
| ParentsRoute.LinkedIdsMembers | backend/routes/parents.js:110-118 | a string is linked exactly when it has ten characters and some given id trims to it |
| ParentsRoute.TrimDigits | backend/routes/parents.js:118 | trimming leaves a digit string unchanged |
| ParentsRoute.TenDigitsLinkedWhole | backend/routes/parents.js:110-118 | ten-digit ids are linked whole and in order |
| ParentsRoute.RegistrationValidPassesAsWritten | backend/routes/parents.js:17-54 | every registration the ten-digit rules accept passes the chain as written |
| ParentsRoute.SignedIdPassesAsWritten | backend/routes/parents.js:18-22 | the chain as written accepts a signed ten-character id the ten-digit rule refuses |
| ParentsRoute.SelfWithoutLevelPassesAsWritten | backend/routes/parents.js:46-53 | as written a parent asking to register as a student without a level passes and does not become a student |
| ParentsRoute.ValidSelfRegistrationIsStudent | backend/routes/parents.js:50-53 | with the level rule applied, a valid registration makes the parent a student exactly when it asks to |
| ParentsRoute.JoinedIsRefused | backend/routes/parents.js:37-45 | a comma-separated `childIds` string never passes validation, so the string branch of the handler is unreachable |
| ParentsRoute.ValidRegistrationLinksAll | backend/routes/parents.js:110-118 | after validation every listed child id is linked, in order (also lines 37-45) |
| ParentsRoute.LinkedRelations | backend/routes/parents.js:120-135 | each listed child gets a 'parent' relationship, a new one primary and an existing one keeping its flag; other rows are unchanged |
| ParentsRoute.AdoptedStudents | backend/routes/parents.js:137-144 | a listed student without a parent takes this one; a student with a parent keeps it |
| ParentsRoute.LinkedRelationsSnoc | backend/routes/parents.js:120-135 | one more child upserts one relationship |
| ParentsRoute.AdoptedStudentsSnoc | backend/routes/parents.js:137-144 | one more child sets that student's parent only when it has none |
| ParentsRoute.BackedAfterLinking | backend/routes/parents.js:120-146 | linking keeps every student's parent backed by a relationship row |
| ParentsRoute.SetActive | backend/routes/parents.js:492-515 | only listed parents change, to the given activation |
| ParentsRoute.ToggleIsBulkOfOne | backend/routes/parents.js:418-436 | switching one parent is the bulk switch of a one-element list (also lines 492-515) |
| ParentsRoute.ParentStore.constructor | backend/routes/parents.js:57-178 | the given users and parents, no students or relationships |
| ParentsRoute.ParentStore.Register | backend/routes/parents.js:57-178 | registered exactly for a valid registration with no uniqueness conflict: an inactive user, the parents row, the own students row when asked for, and links to each ten-character child id; nothing is kept otherwise |
| ParentsRoute.ParentStore.LinkAll | backend/routes/parents.js:120-146 | the loop upserts each relationship and gives each parentless student this parent |
| ParentsRoute.ParentStore.LinkChild | backend/routes/parents.js:227-298 | 400 on a broken rule; linked exactly for a known parent and student, upserting the relationship as primary with its type and giving a parentless student this parent |
| ParentsRoute.ParentStore.UnlinkChild | backend/routes/parents.js:301-334 | 404 without the relationship; otherwise it is removed and the student's parent cleared only if it was this parent |
| ParentsRoute.ParentStore.ToggleStatus | backend/routes/parents.js:418-436 | switched exactly for a parent's user; nothing else changes |
| ParentsRoute.ParentStore.BulkStatus | backend/routes/parents.js:492-515 | 400 for an empty list; otherwise every listed parent's user is switched |
| SemestersRoute.Stored | backend/routes/semesters.js:91-135 | the stored row takes the body's school, type and year, the weekend days or Friday and Saturday, and the vacation days or none |
| SemestersRoute.WriteKeepsUnique | backend/routes/semesters.js:82-129 | writing a row whose school, type and year no other row holds keeps (school, type, year) unique |
| SemestersRoute.CoursesWithout | backend/routes/semesters.js:160-177 | exactly the courses of other semesters remain, unchanged |
| SemestersRoute.GradesWithout | backend/routes/semesters.js:160-177 | exactly the grades of other semesters remain, unchanged |
| SemestersRoute.SemesterStore.constructor | backend/routes/semesters.js:61-272 | the given schools and classes, no semesters, courses or grades |
| SemestersRoute.SemesterStore.Create | backend/routes/semesters.js:61-101 | 403 for other roles; created exactly for a known school without this type and year, storing the row with its defaults; nothing changes otherwise |
| SemestersRoute.SemesterStore.Update | backend/routes/semesters.js:104-145 | 403 for other roles; saved exactly when a given school is known and free of this type and year and the semester exists; every column is overwritten |
| SemestersRoute.SemesterStore.Delete | backend/routes/semesters.js:148-186 | deleted exactly for the system admin and an existing semester, with its grades and courses; nothing changes otherwise |
| SemestersRoute.SemesterStore.CreateClassCourse | backend/routes/semesters.js:248-272 | created exactly for a permitted role and a known class; the course takes the class's school |
| SemestersRoute.SemesterStore.CreateCourse | backend/routes/semesters.js:226-245 | created exactly for a permitted role, with the school and class the body names |
| CleanupRoles.IntendedRole | backend/cleanup-duplicate-roles.js:49-64 | there is an intended role exactly when the user is in some role table |
| CleanupRoles.NoTableLeft | backend/cleanup-duplicate-roles.js:49-64 | a set holding none of the six tables is empty, so the ladder always ends with a role for a listed user |
| CleanupRoles.IntendedIsHighest | backend/cleanup-duplicate-roles.js:49-64 | a duplicated user's intended role outranks the role of every table they are in |
| CleanupRoles.CleanedKeepsIntended | backend/cleanup-duplicate-roles.js:72-89 | with the corrected deletions, the user is afterwards in exactly the intended role's tables, the intended role is unchanged, and only a parent who is also a student stays in two tables |
| CleanupRoles.CleanedIdempotent | backend/cleanup-duplicate-roles.js:37-97 | with the corrected deletions, running the clean-up twice changes nothing more |
| CleanupRoles.KeptAsWritten | backend/cleanup-duplicate-roles.js:72-89 | as written, the students row stays exactly for the intended role student, the parents row exactly for parent and parent_student; every other role keeps its own table |
| CleanupRoles.CleanedAsWrittenSingle | backend/cleanup-duplicate-roles.js:72-89 | as written, a duplicated user ends in exactly one table, is no longer duplicated, and a second run changes nothing |
| CleanupRoles.ParentStudentLosesStudentRow | backend/cleanup-duplicate-roles.js:58-75 | a user in the parents and students tables only is intended as parent_student, yet is left in the parents table alone, where the ladder then reads parent; the corrected rule keeps both rows |
| CleanupRoles.RoleTables.constructor | backend/cleanup-duplicate-roles.js:9-30 | the given role memberships |
| CleanupRoles.RoleTables.Cleanup | backend/cleanup-duplicate-roles.js:37-97 | every listed user whose transaction succeeds ends with the memberships the deletions as written leave; a user whose transaction fails, and every unlisted user, is unchanged |
| HomeworkRoute.Filter | backend/routes/homework.js:24-49 | a filter adds its clause exactly when its value is truthy, and tests that value |
| HomeworkRoute.FilterTested | backend/routes/homework.js:24-49 | a column is compared with a value exactly when its filter is that non-empty value |
| HomeworkRoute.ListQuery | backend/routes/homework.js:7-59 | one `= $n` clause per truthy filter, numbered from `$1`, each binding its filter's value |
| HomeworkRoute.NatToStringInjective | backend/routes/homework.js:126 | different numbers print differently |
| HomeworkRoute.SplitAfterDigits | backend/routes/homework.js:126 | two digit runs followed by non-digit text split the same way |
| HomeworkRoute.DropPrefix | backend/routes/homework.js:126 | a common prefix can be dropped |
| HomeworkRoute.DefaultTitleInjective | backend/routes/homework.js:126 | the default title determines its surah range |
| HomeworkRoute.NewHomework | backend/routes/homework.js:95-149 | the new row has the title or its default, the status given, 'pending' when the status is missing and NULL when it is null, today's assignment date, and no completion or grade |
| HomeworkRoute.InsertedStatus | backend/routes/homework.js:109 | the inserted status is NULL exactly for a null status, 'pending' for a missing one and the text otherwise |
| HomeworkRoute.UpdatedKeepsOmitted | backend/routes/homework.js:197-224 | an omitted field keeps its value, a given one takes it, target and assignment date never change, and repeating the update changes nothing more |
| HomeworkRoute.EmptyUpdateKeepsRow | backend/routes/homework.js:197-224 | an update that gives nothing leaves the row as it was |
| HomeworkRoute.Completed | backend/routes/homework.js:280-288 | the row's status is 'completed', completed today, with a grade exactly when a truthy grade id is given |
| HomeworkRoute.HomeworkStore.constructor | backend/routes/homework.js:92-308 | no homework |
| HomeworkRoute.HomeworkStore.Create | backend/routes/homework.js:92-163 | 400 without the whole range, 400 without a class or student; created exactly otherwise, storing the new row |
| HomeworkRoute.HomeworkStore.Update | backend/routes/homework.js:166-238 | saved exactly for an existing id, applying the COALESCE update; nothing changes otherwise |
| HomeworkRoute.HomeworkStore.Delete | backend/routes/homework.js:241-268 | removed exactly for an existing id, which is gone afterwards |
| HomeworkRoute.HomeworkStore.Complete | backend/routes/homework.js:271-308 | saved exactly for an existing id, which is then completed; nothing changes otherwise |
| ChildrenRoute.AddCheck | backend/routes/children.js:81-181 | the link goes through exactly when every check passes: a truthy student id, a date of birth from a parent caller, a well-formed date when one is given, an existing parent and student who differ, a matching stored date when one is given, a student-role user not yet linked; each refusal names a check that fails (missing student exactly for a falsy id) |
| ChildrenRoute.ParentNeedsBirthDate | backend/routes/children.js:100-150 | a parent caller without the student's stored date of birth, or linking to themselves, is always refused |
| ChildrenRoute.Edited | backend/routes/children.js:243-250 | the edit keeps parent and student and takes each given field, keeping the stored one otherwise |
| ChildrenRoute.EditKeepsWellFormed | backend/routes/children.js:235-266 | editing keeps relationships free of self-links and unique per (parent, student) |
| ChildrenRoute.Children.constructor | backend/routes/children.js:81-266 | the given users, no relationships |
| ChildrenRoute.Children.Add | backend/routes/children.js:81-208 | a refused check returns its reply with nothing changed; otherwise a new relationship whose type and primary flag are the given values, 'parent' and false when missing, and NULL when null |
| ChildrenRoute.Inserted | backend/routes/children.js:87-88 | a defaulted body field inserts NULL exactly when null, its default when missing and its value otherwise |
| ChildrenRoute.Children.Remove | backend/routes/children.js:211-232 | removed exactly for a relationship of this parent; nothing changes otherwise |
| ChildrenRoute.Children.Edit | backend/routes/children.js:235-266 | saved exactly for a relationship of this parent, applying the COALESCE edit; nothing changes otherwise |
| QuranTestingModal.ToArabicIndic | frontend/src/components/QuranTestingModal.jsx:6-9 | same length; each ASCII digit d becomes U+0660+d and every other character is kept |
| QuranTestingModal.ArabicIndicRoundTrip | frontend/src/components/QuranTestingModal.jsx:6-9 | text without Arabic-Indic digits is recovered from its display form |
| QuranTestingModal.AyahKey | frontend/src/components/QuranTestingModal.jsx:204-207 | the key is the surah number, else the selected surah, else "0", then '-' and the ayah number |
| QuranTestingModal.AyahKeyInjective | frontend/src/components/QuranTestingModal.jsx:204-207 | ayahs of numbered surahs share a key only when they are the same ayah |
| QuranTestingModal.AyahKeySplits | frontend/src/components/QuranTestingModal.jsx:204-207 | the key splits on '-' back into its surah and ayah numbers |
| QuranTestingModal.WordsOf | frontend/src/components/QuranTestingModal.jsx:215 | an ayah with no entry has no marked words |
| QuranTestingModal.Put | frontend/src/components/QuranTestingModal.jsx:214-222 | the written ayah gets the new list and every other ayah keeps its list |
| QuranTestingModal.PutKeepsDistinctKeys | frontend/src/components/QuranTestingModal.jsx:214-222 | writing an ayah keeps one entry per key, and every entry is the written one or one that was there before |
| QuranTestingModal.Distinct | frontend/src/components/QuranTestingModal.jsx:215-221 | the set's array holds the same indices with no repeat |
| QuranTestingModal.Flip | frontend/src/components/QuranTestingModal.jsx:216-220 | the index's membership flips, every other index keeps it, no repeat appears, and the length moves by one |
| QuranTestingModal.Toggled | frontend/src/components/QuranTestingModal.jsx:209-224 | only the toggled ayah changes: the word's mark flips, other words keep theirs, and its list has no repeat |
| QuranTestingModal.ToggleTwice | frontend/src/components/QuranTestingModal.jsx:209-224 | toggling a word twice restores every ayah's marked words |
| QuranTestingModal.TotalErrorsPut | frontend/src/components/QuranTestingModal.jsx:226-229 | replacing one ayah's list moves the total by the difference of the lengths |
| QuranTestingModal.ToggleChangesTotalByOne | frontend/src/components/QuranTestingModal.jsx:209-229 | marking a word adds one error and unmarking removes one |
| QuranTestingModal.DistinctOfDistinct | frontend/src/components/QuranTestingModal.jsx:215-221 | a list without repeats comes back from the set unchanged |
| QuranTestingModal.CalculatedGrade | frontend/src/components/QuranTestingModal.jsx:232 | never negative, at most the maximum for a non-negative deduction, the maximum with no errors, and the deduction itself when positive |
| QuranTestingModal.CalculatedGradeAntitone | frontend/src/components/QuranTestingModal.jsx:232 | more errors never raise the grade |
| QuranTestingModal.ManualGrade | frontend/src/components/QuranTestingModal.jsx:620-627 | blank stays blank, a number lands in [0, maxGrade] and is kept when already inside, NaN becomes 0 |
| QuranTestingModal.SaveError | frontend/src/components/QuranTestingModal.jsx:269-278 | saving goes ahead exactly with ayahs loaded and a course selected |
| QuranTestingModal.TestSheet.constructor | frontend/src/components/QuranTestingModal.jsx:5 | the initial marks and the view flag |
| QuranTestingModal.TestSheet.ToggleWordError | frontend/src/components/QuranTestingModal.jsx:209-224 | no change in view mode; the toggle otherwise |
| QuranReader.FindSurah | frontend/src/pages/QuranReader.jsx:28 | a found surah is in the list with that number; none exactly when no surah has it |
| QuranReader.AyahOptions | frontend/src/pages/QuranReader.jsx:27-31 | none for an unknown surah; otherwise "1" up to its ayah count |
| QuranReader.AyahOptionsReadBack | frontend/src/pages/QuranReader.jsx:27-31 | option i reads back as ayah i+1 |
| QuranReader.Reader.constructor | frontend/src/pages/QuranReader.jsx:13-22 | no ayahs and no marks |
| QuranReader.Reader.SetAyahs | frontend/src/pages/QuranReader.jsx:97-99 | loading ayahs clears every mark, so the total is 0 |
| QuranReader.Reader.ToggleWordError | frontend/src/pages/QuranReader.jsx:152-164 | the toggle on the marks, ayahs unchanged |
| StudentProfileModal.NextMemorizationRef | frontend/src/components/StudentProfileModal.jsx:1588-1606 | none for an unknown surah; the next ayah while the surah lasts; then ayah 1 of the next position; at the final position its last ayah |
| StudentProfileModal.NextRefInTable | frontend/src/components/StudentProfileModal.jsx:1593-1606 | from a known surah the next reference names a surah of the table and one of its ayahs |
| StudentProfileModal.MergedHomework | frontend/src/components/StudentProfileModal.jsx:354-359 | no id repeats, every id of both lists survives, and each survivor is the first homework with its id |
| StudentProfileModal.InsertByDate | frontend/src/components/StudentProfileModal.jsx:362-364 | inserting adds exactly that homework |
| StudentProfileModal.InsertByDateNewestFirst | frontend/src/components/StudentProfileModal.jsx:362-364 | inserting into a newest-first list keeps it newest first |
| StudentProfileModal.SortNewestFirst | frontend/src/components/StudentProfileModal.jsx:362-364 | the sort is a permutation of its input |
| StudentProfileModal.SortNewestFirstSorted | frontend/src/components/StudentProfileModal.jsx:362-364 | the sorted list is newest first |
| StudentProfileModal.FirstPending | frontend/src/components/StudentProfileModal.jsx:369 | a found homework is in the list and not completed; none exactly when all are completed |
| StudentProfileModal.FirstPendingIsNewest | frontend/src/components/StudentProfileModal.jsx:369 | in a newest-first list the first pending homework is at least as recent as any pending one |
| StudentProfileModal.LatestPending | frontend/src/components/StudentProfileModal.jsx:362-370 | with any pending homework, the latest pending one exists, is one of the homework and is at least as recent as every pending one |
| StudentProfileModal.IdOfName | frontend/src/components/StudentProfileModal.jsx:452-455 | a found id belongs to a surah of that name; none when no surah has it |
| StudentProfileModal.GradeRefRoundTrip | frontend/src/components/StudentProfileModal.jsx:525-535 | a surah of the table and a verse without ':' are read back from the stored reference as written (also lines 452-455) |
| StudentProfileModal.ValueAfterSkips | frontend/src/components/StudentProfileModal.jsx:773 | the leftmost match is the one at the first occurrence of the label |
| StudentProfileModal.ValueAfterAt | frontend/src/components/StudentProfileModal.jsx:773 | a label followed by a space and a number matches that number |
| StudentProfileModal.ValueAfterWritten | frontend/src/components/StudentProfileModal.jsx:743-773 | a number written after the label's first occurrence is read back |
| StudentProfileModal.ReadDecimalOfText | frontend/src/components/StudentProfileModal.jsx:773-775 | `parseFloat` of the matched `\d+(?:\.\d+)?` reads a printed number back as itself |
| StudentProfileModal.ViewedGradePerError | frontend/src/components/StudentProfileModal.jsx:769-777 | the view reads a printed number, 1 for empty notes |
| StudentProfileModal.NotesRoundTrip | frontend/src/components/StudentProfileModal.jsx:743-777 | the deduction written into the notes, whole or with a fraction, is the one the view reads, unless the label occurs earlier |
| StudentProfileModal.AttendanceRate | frontend/src/components/StudentProfileModal.jsx:324-326 | between 0 and 100, 100 when every day is present, 0 with no present day or no records |
| StudentManagement.ClassById | frontend/src/pages/StudentManagement.jsx:453-471 | a found class is in the list with that id; none exactly when no class has it |
| StudentManagement.Filtered | frontend/src/pages/StudentManagement.jsx:452-479 | exactly the students that pass every filter, in the list |
| StudentManagement.NoFilterShowsAll | frontend/src/pages/StudentManagement.jsx:466-476 | a blank search with every filter at "all" shows every student |
| StudentManagement.StatusFilterExact | frontend/src/pages/StudentManagement.jsx:469 | under a status filter only students of that status are shown |
| StudentManagement.UniqueStudents | frontend/src/pages/StudentManagement.jsx:482-488 | the first student per id, in order: no id repeats, every id survives, each row is from the input |
| StudentManagement.VisibleClasses | frontend/src/pages/StudentManagement.jsx:493-496 | exactly the classes matching both the school and the semester filter |
| StudentManagement.ToggleStatus | frontend/src/pages/StudentManagement.jsx:373-389 | active becomes suspended and anything else active; nothing is sent when activating a student without a class, or when the suspension dialog is declined |
| StudentManagement.ToggleNeverActivatesClassless | frontend/src/pages/StudentManagement.jsx:375-389 | the toggle never activates a student without a class and never suspends one without the dialog confirmed |
| StudentManagement.FinalStatus | frontend/src/pages/StudentManagement.jsx:136-164 | the status changes only to active and only for an inactive student being edited; a confirmed move to another class activates |
| StudentManagement.IfNonBlank | frontend/src/pages/StudentManagement.jsx:184-198 | a field is sent exactly when it is non-blank, trimmed where the page trims it |
| StudentManagement.BuildPayload | frontend/src/pages/StudentManagement.jsx:168-217 | the four name parts and the school level always; the id of a new student, trimmed, only when its trimmed length is 10; e-mail, phone, address and notes trimmed and the date of birth as typed, each only when non-blank; school and class only when set; the four memorisation fields only when set, as parseInt reads them; an empty status becomes "inactive" |
| StudentManagement.IfSetParsed | frontend/src/pages/StudentManagement.jsx:206-217 | a memorisation field is sent exactly when set, as parseInt of it (NaN as null) |
| StudentManagement.PickedNumberSent | frontend/src/pages/StudentManagement.jsx:206-217 | a number written by the form's picker is sent as that number |
| StudentManagement.PayloadOptionalText | frontend/src/pages/StudentManagement.jsx:184-198 | phone, address and notes are sent trimmed and the date of birth as typed, each exactly when non-blank |
| ComprehensiveGrading.GradeColor | frontend/src/pages/ComprehensiveGrading.jsx:256-262 | green exactly from 90, red exactly below 60 |
| ComprehensiveGrading.AttendanceColor | frontend/src/pages/ComprehensiveGrading.jsx:264-269 | never blue; green exactly from 95, red exactly below 75 |
| ComprehensiveGrading.GradeColorMonotone | frontend/src/pages/ComprehensiveGrading.jsx:256-262 | a higher grade never gets a worse colour |
| ComprehensiveGrading.AttendanceColorMonotone | frontend/src/pages/ComprehensiveGrading.jsx:264-269 | a higher rate never gets a worse colour |
| ComprehensiveGrading.RatingLabel | frontend/src/pages/ComprehensiveGrading.jsx:271-278 | "-" exactly for null; excellent exactly from 90; weak exactly below 60 |
| ComprehensiveGrading.RatingFollowsGradeColor | frontend/src/pages/ComprehensiveGrading.jsx:256-278 | the rating and the grade colour step at the same grades |
| ComprehensiveGrading.RatingMonotone | frontend/src/pages/ComprehensiveGrading.jsx:271-278 | a higher value never gets a worse rating |
| ComprehensiveGrading.Lookup | frontend/src/pages/ComprehensiveGrading.jsx:289 | a key is found exactly when the object has it, with its value |
| ComprehensiveGrading.FirstExplicitKey | frontend/src/pages/ComprehensiveGrading.jsx:282-292 | the first explicit name present as a key; none exactly when none is present |
| ComprehensiveGrading.FirstFuzzyKey | frontend/src/pages/ComprehensiveGrading.jsx:293-295 | the first key mentioning attendance; none exactly when no key does |
| ComprehensiveGrading.WeightFromPercentages | frontend/src/pages/ComprehensiveGrading.jsx:280-297 | an explicit key's value before any fuzzy key's, and 0 with neither |
| ComprehensiveGrading.FindCourse | frontend/src/pages/ComprehensiveGrading.jsx:308-336 | a found course is in the list with that name; none exactly when no course has it |
| ComprehensiveGrading.FirstExplicitCourse | frontend/src/pages/ComprehensiveGrading.jsx:307-310 | a course with an explicit name; none exactly when no explicit name is a course |
| ComprehensiveGrading.FirstAttendanceCourse | frontend/src/pages/ComprehensiveGrading.jsx:311-370 | the first attendance-like course of the list; none exactly when there is none |
| ComprehensiveGrading.WeightFromCourses | frontend/src/pages/ComprehensiveGrading.jsx:299-317 | 0 without a list; an explicit course's percentage first; otherwise the first attendance-like course's percentage, and 0 when there is none |
| ComprehensiveGrading.ExplicitIsAttendance | frontend/src/pages/ComprehensiveGrading.jsx:282-330 | every explicit name is an attendance name |
| ComprehensiveGrading.ResolveAttendanceWeight | frontend/src/pages/ComprehensiveGrading.jsx:319-325 | a positive direct weight first, then a positive weight from the courses, then the percentages |
| ComprehensiveGrading.NoAttendanceNoWeight | frontend/src/pages/ComprehensiveGrading.jsx:280-325 | with no attendance course, key or direct weight the weight is 0 |
| ComprehensiveGrading.CourseWeight | frontend/src/pages/ComprehensiveGrading.jsx:332-342 | 0 for no name; the attendance column uses the resolved weight; another course its own percentage, and the percentages object's entry (0 when none) when there is no course list, no such course or no percentage |
| ComprehensiveGrading.Add | frontend/src/pages/ComprehensiveGrading.jsx:352-366 | the Set keeps its order, gains the name and holds no repeat |
| ComprehensiveGrading.AddAll | frontend/src/pages/ComprehensiveGrading.jsx:363-366 | adding every key, in order, gives the Set after those insertions |
| ComprehensiveGrading.AddedAll | frontend/src/pages/ComprehensiveGrading.jsx:352-367 | the Set after a run of insertions keeps its earlier entries first, holds no repeat and holds exactly the union |
| ComprehensiveGrading.AddedAllConcat | frontend/src/pages/ComprehensiveGrading.jsx:364-367 | inserting two runs one after the other is inserting their concatenation |
| ComprehensiveGrading.AddCourseNames | frontend/src/pages/ComprehensiveGrading.jsx:355-361 | the Set after inserting the non-empty course names in the courses' order: each once, no other name |
| ComprehensiveGrading.NamedCourses | frontend/src/pages/ComprehensiveGrading.jsx:355-361 | the non-empty course names are exactly the names the courses give |
| ComprehensiveGrading.AddGradeKeys | frontend/src/pages/ComprehensiveGrading.jsx:364-367 | the Set after inserting every student's grade keys in turn |
| ComprehensiveGrading.AllGradeKeys | frontend/src/pages/ComprehensiveGrading.jsx:364-367 | every student's grade keys, one after another, are exactly the grade keys |
| ComprehensiveGrading.WithoutAttendanceLike | frontend/src/pages/ComprehensiveGrading.jsx:374-378 | keeps exactly the names that are the attendance column or not attendance-like, in order, and keeps a repeat-free list repeat-free |
| ComprehensiveGrading.CollectedInOrder | frontend/src/pages/ComprehensiveGrading.jsx:352-373 | the Set before the clean-up pass holds each collected name once and exactly the collected names |
| ComprehensiveGrading.DropAttendanceLike | frontend/src/pages/ComprehensiveGrading.jsx:374-378 | the names in their order, without the attendance-like ones other than the attendance column |
| ComprehensiveGrading.CourseNamesForClass | frontend/src/pages/ComprehensiveGrading.jsx:352-379 | the Set's insertion order (course names, percentage keys, grade keys, then the attendance column when the class needs one), with every other attendance-like name removed; no repeats; the column is present when needed and is the only attendance-like name |
| DailyReportsPage.AddReport | frontend/src/pages/DailyReports.jsx:249-265 | one report is appended with the eight expected fields, its counts 0, and the others are unchanged |
| DailyReportsPage.UpdateReport | frontend/src/pages/DailyReports.jsx:303-318 | the field takes the value, other reports and other fields are unchanged, and a change to enrolled or present sets absent to max(0, enrolled − present) |
| DailyReportsPage.AbsentNeverNegative | frontend/src/pages/DailyReports.jsx:308-312 | after a count changes the absent count is a number, never negative and at least enrolled − present |
| DailyReportsPage.Project | frontend/src/pages/DailyReports.jsx:197-206 | exactly the expected fields, each defined exactly when the report has it, with its value |
| DailyReportsPage.ExpectedHasEightFields | frontend/src/pages/DailyReports.jsx:197-206 | the backend receives eight fields |
| DailyReportsPage.Submit | frontend/src/pages/DailyReports.jsx:185-206 | refused exactly without a school or a date; otherwise one cleaned report per report, with exactly the expected fields and their values |
| DailyReportsPage.ChecksDuplicate | frontend/src/pages/DailyReports.jsx:328-332 | the server is asked exactly in create mode with a school and a date |
| DailyReportsPage.ReportForm.constructor | frontend/src/pages/DailyReports.jsx:185 | the school, the date and no reports |
| DailyReportsPage.ReportForm.AddClassReport | frontend/src/pages/DailyReports.jsx:249-265 | the list becomes the appended list; school and date unchanged |
| DailyReportsPage.ReportForm.UpdateClassReport | frontend/src/pages/DailyReports.jsx:303-318 | the list becomes the updated list; school and date unchanged |
| DailyReportsPage.ReportForm.RemoveClassReport | frontend/src/pages/DailyReports.jsx:320-326 | the list loses index i; school and date unchanged |
| Calendar.Midnight | frontend/src/pages/AttendanceManagement.jsx:160-161 | a date string parses to a valid instant at the start of its day |
| Calendar.Earlier | frontend/src/pages/AttendanceManagement.jsx:163 | one of the two, and neither is before it |
| Calendar.Weekday | frontend/src/components/AttendanceCalendar.jsx:108 | a weekday number from 0 to 6 |
| Calendar.IsoWeekday | frontend/src/components/AttendanceCalendar.jsx:108-109 | Monday 1 through Sunday 7: 7 exactly for Sunday, otherwise the plain weekday |
| Calendar.WorkingDays | frontend/src/pages/AttendanceManagement.jsx:168-184 | only days of the range that are neither weekend nor vacation, at most the range's length |
| Calendar.WorkingDaysComplete | frontend/src/pages/AttendanceManagement.jsx:171-184 | every working day of the range is counted |
| Calendar.WorkingDaysStrictlyIncreasing | frontend/src/pages/AttendanceManagement.jsx:171-184 | the walk visits each day once, in order |
| Calendar.WorkingDaysAllDays | frontend/src/pages/AttendanceManagement.jsx:171-184 | with no weekend and no vacation every day of the range counts |
| AttendanceCalendar.WeekStart | frontend/src/components/AttendanceCalendar.jsx:142-145 | the Sunday on or before the day |
| AttendanceCalendar.CalendarDays | frontend/src/components/AttendanceCalendar.jsx:139-156 | 42 consecutive days from the Sunday on or before the first of the month |
| AttendanceCalendar.MonthFitsGrid | frontend/src/components/AttendanceCalendar.jsx:139-156 | every day of a month of up to 31 days is on the grid, which starts on a Sunday |
| AttendanceCalendar.Weeks | frontend/src/components/AttendanceCalendar.jsx:312-318 | rows of seven consecutive grid days, the last one possibly shorter |
| AttendanceCalendar.GridIsSixWeeks | frontend/src/components/AttendanceCalendar.jsx:312-318 | the grid is six full weeks, each starting on a Sunday (also lines 139-156) |
| AttendanceCalendar.WorkingDay | frontend/src/components/AttendanceCalendar.jsx:158-167 | by default exactly the days other than Friday and Saturday; never a vacation day |
| AttendanceCalendar.Tally | frontend/src/components/AttendanceCalendar.jsx:114-124 | each working day adds one to the total |
| AttendanceCalendar.CountDays | frontend/src/components/AttendanceCalendar.jsx:105-128 | the total is the number of working days, and present and explicit days never exceed it |
| AttendanceCalendar.PresentDaysCounted | frontend/src/components/AttendanceCalendar.jsx:117-119 | the present days are the working days whose record says present |
| AttendanceCalendar.CountLoop | frontend/src/components/AttendanceCalendar.jsx:105-128 | the loop's counts are those over the working days up to the last day |
| AttendanceCalendar.AttendanceStats | frontend/src/components/AttendanceCalendar.jsx:95-137 | counts over the working days up to min(today, semester end); absent = total − present; the rate is the rounded percentage present, in [0,100], and 0 with no days |
| AttendanceCalendar.MarkedRecord | frontend/src/components/AttendanceCalendar.jsx:76-83 | the given presence, explicit, and an existing record's other fields kept |
| AttendanceCalendar.Marked | frontend/src/components/AttendanceCalendar.jsx:73-85 | only that student's record on that day changes, to the marked record |
| AttendanceCalendar.MarkIdempotent | frontend/src/components/AttendanceCalendar.jsx:73-85 | marking the same value twice equals marking once |
| AttendanceCalendar.CalendarState.constructor | frontend/src/components/AttendanceCalendar.jsx:9 | the loaded attendance |
| AttendanceCalendar.CalendarState.MarkAttendance | frontend/src/components/AttendanceCalendar.jsx:57-93 | the state takes the mark only when the server accepted it |
| AttendanceManagement.CalculateWorkingDays | frontend/src/pages/AttendanceManagement.jsx:157-187 | 0 without both dates; otherwise the number of working days up to min(end, today) |
| AttendanceManagement.CountWorkingDays | frontend/src/pages/AttendanceManagement.jsx:168-186 | the walk counts exactly the working days from the start through the last day |
| AttendanceManagement.WorkingDaysBound | frontend/src/pages/AttendanceManagement.jsx:157-187 | never more than the days of the range, and all of them with no weekend or vacation |
| AttendanceManagement.RateColor | frontend/src/pages/AttendanceManagement.jsx:189-194 | green exactly from 90, red exactly below 60 |
| AttendanceManagement.RateColorMonotone | frontend/src/pages/AttendanceManagement.jsx:189-194 | a higher rate never gets a worse colour |
| AttendanceManagement.CountText | frontend/src/pages/AttendanceManagement.jsx:137-141 | a count prints as a non-empty text with no comma |
| AttendanceManagement.NoCommaInNumber | frontend/src/pages/AttendanceManagement.jsx:137-141 | a printed integer has no comma |
| AttendanceManagement.RowValues | frontend/src/pages/AttendanceManagement.jsx:135-143 | seven values in the header's order: the four names joined by spaces, the total, present and absent day counts, the percentage with '%', the explicit and graded day counts, each count printed as `x \|\| 0`; the six counts never contain a comma |
| AttendanceManagement.ExportLines | frontend/src/pages/AttendanceManagement.jsx:132-148 | nothing without statistics; otherwise the header line and one comma-joined line per student |
| AttendanceManagement.ExportRowReadsBack | frontend/src/pages/AttendanceManagement.jsx:145-148 | a line splits back into the student's seven values when the name has no comma |
| AttendanceManagement.HeaderReadsBack | frontend/src/pages/AttendanceManagement.jsx:146 | the header splits back into its seven column names |
| FormRules.MobileIsTenDigits | frontend/src/pages/ParentRegistration.jsx:68-74 | every mobile number also passes the ten-digit rule |
| FormRules.EmailAccepted | frontend/src/pages/ParentRegistration.jsx:82 | an address of the form user@host.tld, with a top-level label of two characters or more, is accepted |
| FormRules.EmailRejected | frontend/src/pages/ParentRegistration.jsx:82 | an address without '@' or with a one-label domain is refused |
| FormRules.SplitWithout | frontend/src/pages/ParentRegistration.jsx:82 | text without the separator splits into itself |
| FormRules.PasswordErrors | frontend/src/components/ChangePasswordModal.jsx:22-34 | no message exactly for a strong password; each message exactly when its rule is broken; at most three |
| FormRules.AfterInput | frontend/src/components/ChangePasswordModal.jsx:36-64 | a typed new password carries its messages exactly when weak; the mismatch message is set exactly when a typed confirmation differs; untouched entries are kept |
| FormRules.AfterInputConsistent | frontend/src/components/ChangePasswordModal.jsx:36-64 | every keystroke keeps the messages consistent with the fields |
| ChangePasswordModal.PasswordForm.constructor | frontend/src/components/ChangePasswordModal.jsx:8-20 | empty fields, hidden passwords, no messages |
| ChangePasswordModal.PasswordForm.HandleInputChange | frontend/src/components/ChangePasswordModal.jsx:36-64 | the field takes the value, the banner clears and the messages follow the live validation |
| ChangePasswordModal.PasswordForm.HandleClose | frontend/src/components/ChangePasswordModal.jsx:100-114 | every field, toggle and message back to its initial value |
| ChangePasswordModal.PasswordForm.IsFormValid | frontend/src/components/ChangePasswordModal.jsx:116-124 | on a consistent form an enabled button means a strong, confirmed new password |
| ResetPasswordPage.ResetForm.constructor | frontend/src/pages/ResetPassword.jsx:19-27 | verifying, token not yet valid, empty fields, no messages |
| ResetPasswordPage.ResetForm.CheckToken | frontend/src/pages/ResetPassword.jsx:29-56 | the server is asked exactly when there is a token; without one the invalid-link message shows; a 2xx with valid true marks the token valid and leaves the error as it was, a 2xx with valid false shows the expired-link message, and an error reply shows its own error field, the expired-link message only when it has none; verifying ends |
| ResetPasswordPage.Seen | backend/routes/forgotPassword.js:232-277 | every verify-token reply reaches the page as an accepted answer exactly when it is the valid one; a refused token arrives as an error carrying 'Invalid or expired reset token', a handler failure as one carrying 'Failed to verify token', and no error reply lacks a message or carries the expired-link text |
| ResetPasswordPage.ResetForm.CheckTokenWith | frontend/src/pages/ResetPassword.jsx:38-56 | against the verify-token handler itself: a token with no usable row shows 'Invalid or expired reset token', an owner without an address shows 'Failed to verify token', and a usable token marks the page valid with its error untouched |
| ResetPasswordPage.ResetForm.HandleInputChange | frontend/src/pages/ResetPassword.jsx:72-100 | the field takes the value, the banner clears and the messages follow the live validation |
| ResetPasswordPage.ResetForm.IsFormValid | frontend/src/pages/ResetPassword.jsx:134-141 | on a consistent form an enabled button means a strong, confirmed new password |
| ParentRegistration.AddChildId | frontend/src/pages/ParentRegistration.jsx:47-49 | one more, empty, input after the others |
| Lists.RemoveAt | frontend/src/pages/ParentRegistration.jsx:51-53 | removeChildId (and removeClassReport, DailyReports.jsx:320-326): exactly entry i is removed and the rest keep their order; an index out of range changes nothing |
| ParentRegistration.ChangeChildId | frontend/src/pages/ParentRegistration.jsx:41-45 | only input i changes, to the value |
| ParentRegistration.AddThenRemove | frontend/src/pages/ParentRegistration.jsx:47-53 | adding an input and removing it restores the list |
| ParentRegistration.ValidChildIds | frontend/src/pages/ParentRegistration.jsx:89 | exactly the non-blank inputs |
| ParentRegistration.ChildIdErrors | frontend/src/pages/ParentRegistration.jsx:90-94 | an error at position idx of the filtered list exactly when that id is not ten digits |
| ParentRegistration.CheckedError | frontend/src/pages/ParentRegistration.jsx:66-84 | an error exactly for an empty or malformed field; the required message only for an empty one |
| ParentRegistration.NoChildErrors | frontend/src/pages/ParentRegistration.jsx:89-94 | no child error exactly when every non-blank input is ten digits |
| ParentRegistration.Validate | frontend/src/pages/ParentRegistration.jsx:55-99 | no error exactly when every rule holds; the level error exactly when registering oneself without a level |
| ParentRegistration.Submit | frontend/src/pages/ParentRegistration.jsx:55-116 | sent exactly when every rule holds, with the form, every non-blank child id (all ten digits), and the level exactly when registering oneself |
| FormRules.IdError | frontend/src/pages/StudentRegistration.jsx:51-55 | the id check of the registration pages (also TeacherRegister.jsx:44-46): an error exactly when the id is not ten digits; the required message when empty, the ten-digits message otherwise |
| StudentRegistration.OptionalError | frontend/src/pages/StudentRegistration.jsx:68-78 | an error exactly for a non-empty malformed field |
| StudentRegistration.Validate | frontend/src/pages/StudentRegistration.jsx:40-78 | no error exactly when every rule holds; the optional fields are checked only when given |
| StudentRegistration.Submit | frontend/src/pages/StudentRegistration.jsx:40-91 | sent exactly when every rule holds; an empty parent id becomes null, a given one is ten digits |
| FormRules.RequiredError | frontend/src/pages/TeacherRegister.jsx:39-52 | the required-field check of the registration pages (also ParentRegistration.jsx:61-64 and StudentRegistration.jsx:46-65): the given message exactly for an empty field |
| TeacherRegister.PhoneError | frontend/src/pages/TeacherRegister.jsx:48-50 | an error exactly when not a mobile number; the required message exactly when empty |
| TeacherRegister.EmailError | frontend/src/pages/TeacherRegister.jsx:53-55 | an error exactly when not an address; the required message exactly when empty |
| TeacherRegister.PasswordError | frontend/src/pages/TeacherRegister.jsx:57-59 | an error exactly below six characters; the required message exactly when empty |
| TeacherRegister.Validate | frontend/src/pages/TeacherRegister.jsx:37-62 | no error exactly when every rule holds, with each field's error exactly when its rule fails |
| TeacherRegister.HandleSubmit | frontend/src/pages/TeacherRegister.jsx:64-69 | the form is sent exactly when every rule holds |
| QuranHomeworkModal.PageCount | frontend/src/components/QuranHomeworkModal.jsx:63-74 | none with no ayahs; otherwise the number of distinct non-zero pages, never more than the ayahs |
| QuranHomeworkModal.SaveRange | frontend/src/components/QuranHomeworkModal.jsx:92-105 | refused exactly without both surahs; the start ayah defaults to "1", the end ayah to the end surah's last option, then "1" |
| QuranHomeworkModal.SaveRangeEndsAtLastAyah | frontend/src/components/QuranHomeworkModal.jsx:86-105 | with no end ayah chosen, a known surah's homework ends at its last ayah |

## Left out

- I/O stays outside the model: the database connection, the HTTP layer, `console` output, `localStorage`, the browser and the e-mail transport. Each handler's 500 path on a thrown query is left out too. A query result a handler only reads is a parameter.
- The clock, random tokens, bcrypt hashing and `Date.parse` are parameters. A stored password is the secret itself. `toISOString`'s time-zone shift is left out: a date is a whole day number.
- GET handlers that only run SQL and return its rows are left out, because they compute nothing to state. These are:
  - the grades student average, pages and summary queries;
  - the other class listings;
  - teachers GET /:id, delete, activate and classes;
  - the daily-report list and statistics queries;
  - points GET for a class and for my-classes;
  - database GET tables;
  - the other students.js handlers (GET, /manage, DELETE).
- Floating point is left out.
  - Percentages rounded by `Math.round` are exact integer rounding (`Common.Percent`), and `toFixed` display is left out.
  - Points and grades are exact numbers. Grades and weights on the grading page are whole numbers.
  - A value `Number` turns into NaN is `None`.
- Text rules are simplified.
  - `parseInt` and `Number` are modelled on decimal text: the hex prefix, exponents and JavaScript's other numeric forms are left out. A fractional `parseInt` input keeps its digit run.
  - `decodeURIComponent` is left out: cookie values and the loader's values are kept as written.
  - Unicode case folding beyond ASCII is left out. A regular expression's `.` is taken to match every character, line terminators included.
  - Object prototype keys (`__proto__` and the like) are not special.
  - SQL `LIKE` escapes are left out. The hafs numerals are kept as text.
- `updated_at = NOW()` and other database timestamps are left out.
- The front-end `QURAN_SURAHS` table that `StudentUtils`, `ClassUtils` and `StudentProfileModal` import is not part of this model. It is a parameter (`SurahTable`) with the properties that table must have.
- The uthmani and hafs SQL text, and which source a query actually reads from, are left out. `QuranRoute` states the clauses and their parameters.
- ParentRegistration.ChangeChildId: requires the index to be in range. The page only calls it for an input it rendered; writing past the end would lengthen the JavaScript array.
- DailyReportsPage.UpdateReport: requires the index to be in range. The page only calls it for a rendered report; an index past the end throws in the source.
- ScopeValidator.ValidateDataAccess: states which items are kept, but not that `filter` keeps them in their original order.
- AttendanceManagement.ExportLines: the comma-joined line is stated for the seven values; the `Blob`, the download link and its file name are left out.
- ParentsRoute: the unreachable branch for a string `childIds` (the validator only lets arrays through) is stated by `JoinedIsRefused` and not modelled further.
- ParentsRoute: the two messages that distinguish which unique constraint (error 23505) failed are collapsed into one reply.
- ForgotPasswordRoute: the token returned in the response in development mode is left out.
- SemestersRoute: a `school_id` of `0` or an empty string is treated as missing, as JavaScript's truthiness makes it.
- ChildrenRoute: whether `Date.parse` accepts the date is the `dateParses` input.
- QuranReader: the toggle, total and numeral code it shares with the recitation test is modelled once, in `QuranTestingModal`. It is the same code in both files.
- QuranTestingModal.ToggleTwice: toggling twice restores the set of marked words of every ayah, not the order of the list nor the absence of an empty entry.
- HafsLoader: the loader's console progress output is left out. The file's lines are a parameter and the issued statements are the result.
- StudentProfileModal.Decimal: a deduction is a non-negative number; a negative one, whose sign the pattern `\d+(?:\.\d+)?` skips, is not modelled, nor is floating-point rounding in its printed form.
- AddGrade (`ClassesRoute.AddGrade`): a failing attendance upsert is logged and swallowed in the source; the model has no failing query, so the upsert always happens. The semester of a class without one (NULL) is not given special treatment.
- The handlers below use the corrected rule of a row of the Findings table; the as-written rule is modelled beside it and shown wrong there:
- Post (`GradesRoute.GradesTable.Post`): stores `GradeValue`, so a given `grade_value` of 0 is kept; the code's `grade_value || score` (`GradesRoute.GradeValueAsWritten`) stores `score` or NULL instead.
- Put (`GradesRoute.GradesTable.Put`): the same `GradeValue` rule for the revised row.
- KeepRows (`TeachersRoute.KeepRows`): keeps a row whose decoded school id equals the filter; the code's prefix `LIKE` (`TeachersRoute.SchoolFilterAsWritten`) also keeps longer ids that start with it.
- ListUsers (`TeachersRoute.ListUsers`): lists through `KeepRows`, so it uses the same exact school filter.
- AutoMarkFromGrades (`AttendanceRoute.AttendanceTable.AutoMarkFromGrades`): selects the grades of the class graded or created that day (`AttendanceRoute.Intended`); the code's `(A AND B) OR C` (`AttendanceRoute.AsWritten`) also selects other classes' grades created that day.
- Register (`StudentsRoute.StudentStore.Register`): validates with `StudentsRoute.Valid`, ids of ten digits; the code's `isNumeric` (`StudentsRoute.ValidAsWritten`) also admits a sign or a decimal point.
- Register (`ParentsRoute.ParentStore.Register`): validates with `ParentsRoute.RegistrationValid`: ids of ten digits, and a level when the parent registers as a student. As written (`ParentsRoute.RegistrationValidAsWritten`) `isNumeric` admits a sign or a point, and the level rule never applies.
- LinkChild (`ParentsRoute.ParentStore.LinkChild`): checks the child id with the ten-digit rule (`IdRule(c, true)`); the code's `isNumeric` rule is `IdRule(c, false)`.
- ParentsRoute.LevelRule: the reading that `equals(true)` never holds rests on express-validator passing the value's string form to validator.js's `===` comparison; that library is not part of this model.

## Findings

| source | as written | input that shows it | evidently intended | confidence | as-written member | corrected member |
|---|---|---|---|---|---|---|
| backend/routes/teachers.js:283-286 | the school filter is `qualifications LIKE 'SCHOOL_ID:<s>%'`, a prefix test | school "1" matches a teacher stored as "SCHOOL_ID:12\|x", who belongs to school "12" | only staff whose decoded school id equals the filter | high, not executed | TeachersRoute.PrefixFilterMatchesLongerIds | TeachersRoute.SchoolFilterExact |
| backend/routes/attendance.js:255-261 | `class_id = $1 AND DATE(date_graded) = $2 OR DATE(created_at) = $2` binds as `(A AND B) OR C` | a grade of class 2 created on the day marks its student present in class 1 | only students graded in this class on this day | high, not executed | AttendanceRoute.AsWrittenMarksOtherClass | AttendanceRoute.IntendedMarksOnlyGradedStudents |
| backend/utils/quranUtils.js:218 | `remainingPages = totalPages - memorizedPages`, where the page counts of the table at lines 2-117 sum to 622, not 604 | a student who has memorised the whole table (al-Baqara, ayah 286) has −18 pages remaining | remaining pages never below 0 | high, not executed | QuranUtils.CompleteQuranLeavesNegativePages | QuranUtils.CorrectedRemainingPagesAtEnd |
| src/utils/scopeValidator.ts:136-139 | `filterFields` calls `PrivilegeChecker.getPermissionsForRole`, which the checker does not define | any call of `getStudentsInClass` that finds an accessible student throws | the role's field permissions from the role definitions | high, not executed | ScopeValidator.StudentsInClassAsWrittenThrows | ScopeValidator.StudentsInClass |
| src/utils/scopeValidator.ts:54-61 | a parent's restriction is added only when the parent has children | a parent with no children gets an empty query, which matches every record | a childless parent's query matches nothing | medium, not executed | ScopeValidator.ChildlessParentQueryUnrestricted | ScopeValidator.ScopeQuerySound |
| backend/middleware/rbac.js:141-151 | `currentUserLevel <= targetUserLevel` with an undefined level is false, so the 403 is skipped | a user whose role is "guest" may manage any user | a role without a level manages nobody | high, not executed | Rbac.UnknownRoleManagesAnyone | Rbac.IntendedNeverManagesUpward |
| backend/routes/grades.js:210 | `grade_value \|\| score` (here and at line 321) drops a grade of 0 | `grade_value: 0` with no `score` stores NULL | a present `grade_value`, 0 included, is stored | high, not executed | GradesRoute.ZeroGradeErased | GradesRoute.GradeValueDiffersOnlyAtZero |
| backend/routes/students.js:17-21 | the id rule is length 10 and `isNumeric`, which accepts a sign and a decimal point | "+123456789" and "12345.6789" pass as national ids | ten decimal digits, as the message says | high, not executed | StudentsRoute.NonDigitIdsPass | StudentsRoute.ValidPassesAsWritten |
| backend/routes/parents.js:18-22 | the same length-10 `isNumeric` rule for the parent's id | a registration with id "+123456789" passes | ten decimal digits | high, not executed | ParentsRoute.SignedIdPassesAsWritten | ParentsRoute.RegistrationValidPassesAsWritten |
| backend/routes/parents.js:50-53 | the level rule runs only `.if(body('registerSelf').equals(true))`, and `equals` compares the string "true" with the boolean `true` | `registerSelf: true` with no `selfSchoolLevel` passes, and the parent is registered without becoming a student | a parent registering as a student names a school level | medium (rests on express-validator's behaviour), not executed | ParentsRoute.SelfWithoutLevelPassesAsWritten | ParentsRoute.ValidSelfRegistrationIsStudent |
| backend/cleanup-duplicate-roles.js:72 | the students row is deleted whenever the intended role is not `student`, and the parents row is spared for `parent_student` at line 75 but the students row is not | a user in the parents and students tables only: intended role `parent_student`, yet the students row is deleted | a `parent_student` keeps both the parents and the students row | high, not executed | CleanupRoles.ParentStudentLosesStudentRow | CleanupRoles.CleanedKeepsIntended |
