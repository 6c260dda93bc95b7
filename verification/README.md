# OrgTracker core in Dafny

OrgTracker is a directory of organizations (sole proprietorships,
holdings, SMEs and NGOs). Users can browse and filter the directory and
follow the organizations they care about. This project models the parts
of its backend and frontend that decide what happens, as pure functions
over immutable data, and proves properties of them.

- **Tree model** (`tree_model.dfy`, module `TreeModel`). This is the
  abstract parent/child base model. The table is a map from node id to
  optional parent id. `Forest` is the invariant that every parent chain
  reaches a root, so there are no loops. The module models `children`,
  `decendant`, `ancestry` and the loop check `xclean`, and it models
  creating and cascade-deleting nodes.
- **Organization list** (`organization_filter.dfy`, module
  `OrganizationFilter`, built on `organization.dfy`, `text.dfy` and
  `seqs.dfy`). This is `get_queryset` of the organization view set: each
  query-string filter in turn, then ordering by name. `Admits` states
  declaratively, field by field, which organizations a request lists.
- **Follow endpoints** (`follow.dfy`, module `Follow`). These are follow,
  unfollow and the followed list. Each is a transition on the set of
  (user, organization slug) pairs and returns a status and detail message.
- **Singleton model** (`singleton.dfy`, module `Singleton`). This is a
  table that only ever holds row 1. Save forces key 1, delete does nothing,
  and load is get-or-create on key 1.
- **Frontend router** (`router.dfy`, module `Router`). This is the route
  table with its meta fields, the `beforeEach` guard's decision, the page
  title it sets, and the navigation that results.

Shared definitions are in `wrappers.dfy`: `Option`, `Result` and
`Outcome`.

The date parser (`datetime.strptime`) and the integer parser (`int`) of
the organization list are parameters (`Parsers`). Every property of the
list holds whatever they return. The caller's identity and the stored
token are also parameters.

## Model

| member | source | states |
|---|---|---|
| TreeModel.Children | backend/apps/core/models/tree_model.py:24-31 | An unsaved node has no children. A saved node's children are exactly the stored nodes whose parent it is. |
| TreeModel.ChildrenByAncestry | backend/apps/core/models/tree_model.py:24-31 | `y` is a child of `x` exactly when `x` heads `y`'s ancestry. |
| TreeModel.Descendants | backend/apps/core/models/tree_model.py:33-39 | The union of the children and their descendants is defined (the recursion ends) on every loop-free table. It contains the children and only stored nodes. |
| TreeModel.DescendantsByAncestry | backend/apps/core/models/tree_model.py:33-39 | `y` is a descendant of `x` exactly when `x` is one of `y`'s ancestors. The downward and upward traversals agree. |
| TreeModel.DescendantsIrreflexive | backend/apps/core/models/tree_model.py:33-39 | No node is its own descendant. A node without children has no descendants. |
| TreeModel.AncestryFrom | backend/apps/core/models/tree_model.py:41-49 | The walk up from a parent starts at that parent, follows parent links, and ends at a root. Its length is that parent's depth plus one. |
| TreeModel.Ancestry | backend/apps/core/models/tree_model.py:41-49 | `ancestry()` is empty for a root. Otherwise it starts at the parent, each entry's parent is the next entry, it ends at a root, and it repeats nothing. |
| TreeModel.Ancestors | backend/apps/core/models/tree_model.py:41-49 | A stored node's ancestry has as many entries as its depth and never contains the node itself. |
| TreeModel.AncestorsOfAncestor | backend/apps/core/models/tree_model.py:41-49 | An ancestor's ancestors are ancestors too. |
| TreeModel.XClean | backend/apps/core/models/tree_model.py:17-22 | An unsaved node always passes. A saved node fails exactly when its new parent is a stored node among whose ancestors it is, that is, when the new parent is one of its descendants. |
| TreeModel.AttachKeepsForest | backend/apps/core/models/tree_model.py:17-22 | Giving a node no parent, or a stored parent other than itself and outside its subtree, keeps the table loop-free. |
| TreeModel.AttachMakesLoop | backend/apps/core/models/tree_model.py:17-22 | Making a node its own parent, or a child of one of its descendants, creates a loop. |
| TreeModel.Reparent | backend/apps/core/models/tree_model.py:17-22 | A caller that runs `xclean()` as written before saving: the change is refused exactly when the new parent is a descendant. Otherwise the stored parent is replaced. |
| TreeModel.ReparentKeepsForest | backend/apps/core/models/tree_model.py:17-22 | Every change the check accepts keeps the table loop-free, except a parent equal to the node itself. |
| TreeModel.SelfParentAccepted | backend/apps/core/models/tree_model.py:17-22 | Counterexample: a lone root made its own parent passes the check, and the result has a loop. |
| TreeModel.XCleanNoSelfParent | backend/apps/core/models/tree_model.py:17-22 | The corrected check fails when the original one fails or when the node names itself as parent. |
| TreeModel.ReparentChecked | backend/apps/core/models/tree_model.py:17-22 | With the corrected check, a change is accepted exactly when the resulting table is loop-free. |
| TreeModel.Create | backend/apps/core/models/tree_model.py:10-12 | Inserting a new node under no parent or under an existing parent keeps the table loop-free and leaves the other rows unchanged. |
| TreeModel.Delete | backend/apps/core/models/tree_model.py:10-12 | Deleting a node also deletes its descendants (`on_delete=CASCADE`) and leaves every other row unchanged. |
| TreeModel.DeleteBySubtree | backend/apps/core/models/tree_model.py:10-12 | After deleting `x`, a node survives exactly when it was stored, is not `x`, and does not have `x` as an ancestor. |
| TreeModel.DeleteKeepsForest | backend/apps/core/models/tree_model.py:10-12 | A cascade delete leaves a loop-free table whose parents all still exist. |
| Organization.SortByName | backend/apps/organization/views/organization.py:95 | `order_by('name')` returns the same organizations, with the same multiplicities, sorted by name. |
| Organization.NameLeTransitive | backend/apps/organization/models/organization.py:52 | The name order is transitive. |
| Organization.NameLeTotal | backend/apps/organization/models/organization.py:52 | Any two names are comparable. |
| Text.Lower | backend/apps/organization/views/organization.py:39 | The case folding of `icontains`, on ASCII: the same length, with each character lowered. Its partners are `Text.LowerUpper` and `OrganizationFilter.NameQueryIgnoresCase`. |
| Text.LowerUpper | backend/apps/organization/views/organization.py:39 | A string and its upper-case form are equal once lowered, so folding ignores case. |
| Text.Upper | backend/apps/organization/views/organization.py:52 | `country.upper()`, on ASCII: the same length, with each character raised. Its partners are `Text.UpperLower` and `OrganizationFilter.CountryQueryIgnoresCase`. |
| Text.UpperLower | backend/apps/organization/views/organization.py:52 | A string and its lower-case form are equal once raised. |
| Text.Strip | backend/apps/organization/views/organization.py:45 | `strip()` returns a slice of its input. Everything cut off is whitespace, and the result neither starts nor ends with whitespace. |
| Text.Split | backend/apps/organization/views/organization.py:45 | `split(',')` returns at least one part. No part contains a comma, and joining the parts with commas gives back the input. |
| Text.DecimalRoundTrip | backend/apps/organization/views/organization.py:45 | Reading back the decimal numeral of a number gives that number. |
| OrganizationFilter.TypeCodes | backend/apps/organization/views/organization.py:45 | With the corrected guard (see Findings), a code is in the list exactly when some token, once stripped, is a decimal numeral with that value. |
| OrganizationFilter.TypeCodesAsWritten | backend/apps/organization/views/organization.py:45 | As written: the comprehension fails exactly when a stripped token passes `isdigit()` but is not a decimal numeral. When it does not fail, it yields the same codes as `TypeCodes`. |
| OrganizationFilter.SuperscriptTypeFails | backend/apps/organization/views/organization.py:45 | Counterexample: `org_type=²` makes the comprehension as written fail, while the corrected codes simply ignore the token. |
| OrganizationFilter.OrgTypeCodes | backend/apps/organization/views/organization.py:42-46 | With the corrected guard: an absent or empty `org_type` yields no codes. Otherwise a code is requested exactly when one of the comma-separated tokens reads as it. |
| OrganizationFilter.ByName | backend/apps/organization/views/organization.py:36-39 | A non-empty `name` keeps exactly the organizations whose name contains it, ignoring case. Otherwise nothing is filtered. |
| OrganizationFilter.ByOrgType | backend/apps/organization/views/organization.py:41-47 | With the corrected guard: when some token was a number, only organizations whose kind's code was requested remain. Otherwise nothing is filtered. |
| OrganizationFilter.ByCountry | backend/apps/organization/views/organization.py:49-52 | A non-empty `country` keeps exactly the organizations whose nation equals it in upper case. |
| OrganizationFilter.NameQueryIgnoresCase | backend/apps/organization/views/organization.py:36-39 | `name` in upper case selects the same organizations, in the same order, as `name` as typed. |
| OrganizationFilter.CountryQueryIgnoresCase | backend/apps/organization/views/organization.py:49-52 | `country=tr` selects the same organizations, in the same order, as `country=TR`, and likewise for any other country in lower case. |
| OrganizationFilter.FoundedFrom | backend/apps/organization/views/organization.py:58-63 | A parsable `founding_date_from` keeps the organizations founded on or after it. An unparsable one filters nothing. |
| OrganizationFilter.FoundedTo | backend/apps/organization/views/organization.py:65-70 | A parsable `founding_date_to` keeps the organizations founded on or before it. An unparsable one filters nothing. |
| OrganizationFilter.HeadcountAtLeast | backend/apps/organization/views/organization.py:76-81 | A parsable `headcount_min` keeps the organizations with a known headcount of at least that value. |
| OrganizationFilter.HeadcountAtMost | backend/apps/organization/views/organization.py:83-88 | A parsable `headcount_max` keeps the organizations with a known headcount of at most that value. |
| OrganizationFilter.ExcludeUnknownHeadcount | backend/apps/organization/views/organization.py:90-93 | Once either headcount parameter is non-empty, organizations without a headcount are dropped. |
| OrganizationFilter.Selection | backend/apps/organization/views/organization.py:34-93 | The filters applied in the source's order only narrow the table, and without parameters they keep it whole. |
| OrganizationFilter.SelectionIsOneFilter | backend/apps/organization/views/organization.py:34-93 | The chain of filters keeps, in table order, exactly the organizations `Admits` describes. |
| OrganizationFilter.GetQueryset | backend/apps/organization/views/organization.py:19-95 | The endpoint with the corrected `org_type` guard. The list is sorted by name. It holds each admitted organization as often as the table does, and an organization is listed exactly when it is in the table and admitted. |
| OrganizationFilter.GetQuerysetAsWritten | backend/apps/organization/views/organization.py:19-95 | As written: the request fails exactly when `org_type` is non-empty and one of its stripped tokens passes `isdigit()` but is not a decimal numeral. Otherwise it lists exactly the page `GetQueryset` lists. |
| OrganizationFilter.SuperscriptRequestFails | backend/apps/organization/views/organization.py:42-46 | Counterexample: the request `org_type=²` fails as written, while the corrected endpoint lists every organization. |
| OrganizationFilter.SameAdmitsSameList | backend/apps/organization/views/organization.py:19-95 | Two requests that admit the same organizations list the same page. |
| OrganizationFilter.NoParamsListsAll | backend/apps/organization/views/organization.py:34-95 | Without parameters every organization is listed. |
| OrganizationFilter.EmptyNameIgnored | backend/apps/organization/views/organization.py:37-39 | An empty `name` gives the same page as no `name`, whatever the other parameters. |
| OrganizationFilter.EmptyOrgTypeIgnored | backend/apps/organization/views/organization.py:42-47 | An empty `org_type` gives the same page as no `org_type`, whatever the other parameters. |
| OrganizationFilter.EmptyCountryIgnored | backend/apps/organization/views/organization.py:50-52 | An empty `country` gives the same page as no `country`, whatever the other parameters. |
| OrganizationFilter.EmptyDateFromIgnored | backend/apps/organization/views/organization.py:55-63 | An empty `founding_date_from` gives the same page as none, whatever the other parameters. |
| OrganizationFilter.EmptyDateToIgnored | backend/apps/organization/views/organization.py:56-70 | An empty `founding_date_to` gives the same page as none, whatever the other parameters. |
| OrganizationFilter.EmptyHeadcountMinIgnored | backend/apps/organization/views/organization.py:73-93 | An empty `headcount_min` gives the same page as none, whatever the other parameters: it neither bounds nor drops unknown headcounts. |
| OrganizationFilter.EmptyHeadcountMaxIgnored | backend/apps/organization/views/organization.py:74-93 | An empty `headcount_max` gives the same page as none, whatever the other parameters: it neither bounds nor drops unknown headcounts. |
| OrganizationFilter.UnparseableDateFromIgnored | backend/apps/organization/views/organization.py:58-63 | A `founding_date_from` that does not parse is ignored. The other bound still applies. |
| OrganizationFilter.UnparseableDateToIgnored | backend/apps/organization/views/organization.py:65-70 | A `founding_date_to` that does not parse is ignored. The other bound still applies. |
| OrganizationFilter.HeadcountQueryDropsUnknown | backend/apps/organization/views/organization.py:90-93 | Any non-empty headcount parameter, even an unparsable one, lists only organizations with a known headcount. |
| OrganizationFilter.UnparseableHeadcountMin | backend/apps/organization/views/organization.py:76-81 | An unparsable `headcount_min` sets no bound but still drops unknown headcounts. |
| OrganizationFilter.UnparseableHeadcountMax | backend/apps/organization/views/organization.py:83-88 | An unparsable `headcount_max` sets no bound but still drops unknown headcounts. |
| OrganizationFilter.NoNumericTypeIgnored | backend/apps/organization/views/organization.py:43-47 | An `org_type` without any numeric token filters nothing. |
| OrganizationFilter.OrgTypeList | backend/apps/organization/tests.py:206-211 | `org_type=2,3` requests codes 2 and 3. |
| OrganizationFilter.OrgTypeSpacesAndJunk | backend/apps/organization/views/organization.py:45 | ` 2 ,x` requests code 2 only: spaces are stripped and the non-numeric token is dropped. |
| OrganizationFilter.OrgTypeNoNumber | backend/apps/organization/views/organization.py:45-46 | `x,` requests no code at all. |
| Follow.FindBySlug | backend/apps/userbase/views/follow.py:19 | The lookup finds an organization with the requested slug, and finds none exactly when no organization has that slug. |
| Follow.Followers | backend/apps/userbase/models/user.py:10-14 | An organization's followers are exactly the users paired with it. |
| Follow.FollowOrg | backend/apps/userbase/views/follow.py:13-27 | 401 exactly for an anonymous caller. 404 exactly for an unknown slug. 400 exactly when the pair already exists. Otherwise 200. The relation changes exactly when the answer is 200, and for a known slug it becomes the old relation plus the pair. |
| Follow.UnfollowOrg | backend/apps/userbase/views/follow.py:31-45 | 401, 404 and 400 as for follow, with 400 when the pair is absent. The relation changes exactly on 200, and for a known slug it becomes the old relation minus the pair. |
| Follow.Followed | backend/apps/userbase/views/follow.py:55 | `user.followed_organizations.all()`: exactly the catalog organizations the user follows, each no more often than in the catalog. |
| Follow.ListFollowed | backend/apps/userbase/views/follow.py:49-60 | 401 exactly for an anonymous caller. Otherwise the results are sorted by name and are exactly the catalog organizations the caller follows, and `count` equals their number. |
| Follow.FollowThenUnfollow | backend/apps/userbase/tests/follow.py:165-176 | A successful follow followed by an unfollow of the same organization succeeds and restores the original relation. |
| Follow.UnfollowThenFollow | backend/apps/userbase/views/follow.py:26-45 | A successful unfollow followed by a follow restores the original relation too. |
| Follow.OtherUsersUnaffected | backend/apps/userbase/tests/follow.py:129-147 | One user's follow or unfollow never changes what another user follows. |
| Follow.FollowersChange | backend/apps/userbase/tests/follow.py:178-193 | A follow adds the caller to that organization's followers, and an unfollow removes them. Other organizations' followers stay as they were. |
| Follow.EndpointsKeepReferential | backend/apps/userbase/views/follow.py:19-27 | The endpoints only ever pair users with organizations that exist. |
| Follow.ListCountIsFollowCount | backend/apps/userbase/views/follow.py:55-60 | With unique slugs, the listed count equals the number of organizations the user follows. |
| Follow.FollowRaisesCount | backend/apps/userbase/tests/follow.py:89-106 | A successful follow raises the listed count by exactly one. |
| Singleton.Save | backend/apps/core/models/singleton.py:14-16 | After a save the instance's key is 1 whatever it was before. Row 1 holds its fields, and no other row changes. |
| Singleton.Delete | backend/apps/core/models/singleton.py:18-19 | Deleting leaves the table unchanged. |
| Singleton.Load | backend/apps/core/models/singleton.py:21-24 | Corrected load, with the save forwarding its arguments unpacked: a load returns row 1. It creates row 1 from the defaults exactly when row 1 is absent, and otherwise leaves the table untouched. |
| Singleton.SaveForwarding | backend/apps/core/models/singleton.py:14-16 | As written: a save with keyword arguments forces an update of row 1 and fails exactly when row 1 does not exist. Every save that does not fail is the one `Save` describes, and a save without arguments never fails. |
| Singleton.LoadAsWritten | backend/apps/core/models/singleton.py:14-24 | As written: a load fails exactly when row 1 is absent, because creation goes through the forwarding save. Otherwise it returns the existing row as `Load` does. |
| Singleton.FirstLoadFails | backend/apps/core/models/singleton.py:14-24 | Counterexample: on an empty table the load as written fails, while get-or-create is meant to create row 1 from the defaults. |
| Singleton.OperationsKeepAtMostOne | backend/apps/core/models/singleton.py:14-24 | Starting from a table without other keys, save, delete and load never use a key other than 1, and after a save exactly one row exists. |
| Singleton.LoadIdempotent | backend/apps/core/models/singleton.py:21-24 | A second load creates nothing and returns the same row. |
| Singleton.LoadAfterSave | backend/apps/core/models/singleton.py:14-24 | A load after a save creates nothing and returns the saved instance. |
| Singleton.LoadAfterDelete | backend/apps/core/models/singleton.py:18-24 | Loading after a delete is the same as loading without it. |
| Singleton.SavesOverwrite | backend/apps/core/models/singleton.py:14-16 | Two saves of different instances leave one row, holding the fields saved last. |
| Router.Title | frontend/src/router/index.js:88 | The title is the bare application name exactly when the route has no non-empty title. Otherwise it starts with the route's title, and it always ends with "OrgTracker". |
| Router.Authenticated | frontend/src/router/index.js:84-85 | `!!token`: logged in exactly when a token is stored and it is not the empty string. |
| Router.Guard | frontend/src/router/index.js:82-108 | The guard lets the navigation proceed exactly when the route's access rule admits the user. It redirects to Login, with the requested full path as `redirect`, exactly when the route requires login and no non-empty token is stored. It sends a logged-in user on a guest-only route to the organization list. |
| Router.RouteNamed | frontend/src/router/index.js:11-74 | Resolving a name finds a route of the table with that name, and finds none exactly when no route has that name. |
| Router.RouteTableSound | frontend/src/router/index.js:11-74 | No route both requires login and is guest-only. Route names are distinct, and both redirect targets exist. |
| Router.GuardNeverLoops | frontend/src/router/index.js:91-105 | Under the same token the guard lets a redirect's target through, so it never redirects twice. |
| Router.RedirectTarget | frontend/src/router/index.js:91-104 | A guard that does not proceed sends the navigation to Login carrying the requested path as `redirect`, or to the organization list without a query. |
| Router.Navigate | frontend/src/router/index.js:82-108 | A navigation always ends on a route of the table that admits the user. It ends on the requested route exactly when that route admits the user, and it carries `redirect` exactly when it was sent to Login. After a redirect to another location the title is the landing route's. A redirect to the location already shown leaves that page in place, under the title the guard set for the requested route. |
| Router.RedirectToShownKeepsTitle | frontend/src/router/index.js:88-104 | A logged-in user on the organization list who opens Login stays on the list under the title "Login - OrgTracker"; from no prior page, the list shows its own title. |
| Router.NavigationRespectsAccess | frontend/src/router/index.js:91-105 | Protected pages are shown only to logged-in users, and guest-only pages only to anonymous ones. |
| Router.TitleExamples | frontend/src/router/index.js:88 | "Profile - OrgTracker" for the profile page. "OrgTracker" for a missing or empty title. |

## Left out

- Database, ORM and HTTP plumbing. Query sets are sequences. Serializers,
  pagination, `logo`/`image_path`, timestamps and slug generation are not
  modelled. Slug uniqueness is the table's constraint (`UniqueSlugs`), and
  the lemmas that need it assume it.
- The check-then-act races in `xclean` and in follow/unfollow. The model
  is sequential.
- TreeModel.Ancestry: the walk of `ancestry()` hangs only when the chain
  above the node reaches a loop; a loop elsewhere in the table does not
  matter. The model requires the whole table to be loop-free (`Forest`).
  It takes the node's own parent from memory but reads every ancestor's
  parent as stored. An instance set in memory as its own parent
  (`n.parent = n`), whose `ancestry()` never ends, is not modelled, and
  neither are unsaved parent changes on instances further up the chain.
- TreeModel.Descendants: `decendant()` recurses without end (Python's
  `RecursionError`) when the subtree under the node contains a loop. It
  does terminate when the only loop is elsewhere in the table. The model
  requires the whole table to be loop-free (`Forest`) and says nothing
  about tables with a loop.
- TreeModel.XClean: because it calls `decendant()`, `xclean()` on a node
  whose subtree contains a loop raises `RecursionError`, not
  `ValidationError`. The table `SelfParentAccepted` produces is such a
  case for node 1. The model requires `Forest` and does not model this.
- TreeModel.Reparent: nothing in the program calls `xclean()`. The
  framework's `full_clean()` runs `clean()`, and the `x` prefix keeps this
  method out of it, so the program's own `save()` stores any parent,
  including a descendant or the node itself. `Reparent` and
  `ReparentChecked` model a caller that runs the check before saving; the
  program itself never refuses a save.
- `datetime.strptime` and `int` on the headcount parameters are
  parameters of the model, not reimplemented.
- Text: case mapping, `strip()` and `isdigit()` cover ASCII only, plus
  the superscript digits one to three. Full Unicode tables, collation and
  the database's `icontains` case folding are not modelled.
- Organization.SortByName: names are ordered by character code. Ties keep
  no particular order in the source, and the model states none.
- Follow: the detail texts of the framework's own 401 and 404 answers
  are not modelled (`detail` is `None`). Deleting an organization, which
  also removes its follow pairs, is not modelled.
- Singleton.Save: models a save without arguments, and `SaveForwarding`
  models one with keyword arguments. A save with positional arguments,
  which the framework would read as a truthy `force_insert`, is not
  modelled. The default field values for `load` are a parameter.
- Singleton.Load: this is the corrected load. As written, creating row 1
  goes through `SaveForwarding` and fails (`LoadAsWritten`, see Findings).
  The properties of `Load` hold for the program only once row 1 exists.
- Router: `localStorage` and `document.title` are side effects, and URL
  path matching belongs to vue-router. The guard receives the resolved
  route, its full path and the stored token. Query-string encoding of
  `redirect` is not modelled.
- Router.Navigate: a location is its route and its `redirect` query.
  Other query parameters, the hash and a `redirect` typed directly into
  the address are not modelled. A navigation whose requested location is
  the one already shown is abandoned by vue-router before the guard runs;
  the model always runs the guard for the requested route.
- Management commands, admin, registration and the user profile view are
  not part of this model.

## Findings

| source | as written | input that shows it | evidently intended | confidence | as-written member | corrected member |
|---|---|---|---|---|---|---|
| backend/apps/core/models/tree_model.py:17-22 | `xclean` only rejects a parent among the node's descendants. A node is not its own descendant, so naming the node itself as parent passes. | Table `{1: no parent}`, node 1 given parent 1 | Reject every change that would create a loop, including a self-parent | not executed; high | TreeModel.SelfParentAccepted | TreeModel.ReparentChecked |
| backend/apps/organization/views/organization.py:45 | The guard `t.strip().isdigit()` accepts digits that `int()` rejects, such as superscripts, so `int()` raises `ValueError` and the request fails | `org_type=²` | Drop tokens that are not decimal numerals, as the guard is meant to | not executed; high | OrganizationFilter.SuperscriptRequestFails | OrganizationFilter.GetQueryset |
| backend/apps/core/models/singleton.py:16 | `super().save(args, kwargs)` passes the argument tuple and the keyword dictionary as the framework's `force_insert` and `force_update`. `get_or_create` saves a new row with keywords, so the framework forces an update of the missing row 1 and raises `DatabaseError` | `load()` on an empty table | Forward the arguments unpacked, `super().save(*args, **kwargs)`, so that `load()` creates row 1 | not executed; medium (rests on the framework's `Model.save` and `QuerySet.create`, which are not part of this model) | Singleton.FirstLoadFails | Singleton.Load |

The intent of the first row is the docstring of `xclean`
(tree_model.py:19): the check exists to prevent loops in the tree, and a
self-parent is the shortest loop. The model follows the code
(`TreeModel.XClean`, `TreeModel.Reparent`). The corrected check
`TreeModel.XCleanNoSelfParent` adds the missing case.
