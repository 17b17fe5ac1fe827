# User resource table

A model of the user resource of a small REST service: a controller that keeps
every user in an in-memory table keyed by email address and answers four
requests on it.

- **create** (`POST /users`) stores the body under the body's own email when
  that email is not yet a key (201 with the user), and otherwise answers 409
  with no body and leaves the table alone;
- **get** (`GET /users/{email}`) answers 200 with the stored user, or 404;
- **delete** (`DELETE /users/{email}`) removes the entry and answers 200 with
  the removed user, or 404 when there was none;
- **update** (`PUT /users/{email}`) replaces the entry under the path email
  when there is one (200 with the new user), without comparing the path
  email with the body's email, and otherwise answers 404 and inserts nothing.

`user_store.dfy` (module `UserStore`) holds the values (`User`, `Status`,
`Response`), each handler as a transition on a `map<string, User>` with a
contract that fixes the new table and the response, sequences of requests
(`Run`), and the lemmas that relate several requests. `user_controller.dfy`
(module `UserResource`) holds the controller as a class whose field
`userMap` its methods change in place; every method states the new table in
terms of `old(userMap)`, the response it returns, and its agreement with the
matching transition of `UserStore`.

Delete answers 200 with the removed user, as the code does: its explicit
response entity carries status 200, which overrides the 204 declared in the
method's annotation (and the 204 that the service's description lists for
delete). The model follows the code.

Entries stored by create are keyed by their own email. Update may break this,
since it files the body under the path email; so self-keying is not an
invariant of the table, but it is preserved by every sequence of requests
whose updates carry the path email in their body (`RunPreservesSelfKeyed`),
and `UpdateMayBreakSelfKeyed` exhibits an update that breaks it.

## Model

| member | source | states |
|---|---|---|
| `UserStore.Find` | src/main/java/com/shyammalani/cucumber/resource/UserController.java:54 | a lookup yields a value exactly when the email is a key, and then the stored one |
| `UserStore.CreateUser` | src/main/java/com/shyammalani/cucumber/resource/UserController.java:35-46 | the key set grows by exactly the body's email and all old values are kept; 201 with the user, stored under its own email, iff the email was absent; 409 with no body iff it was present |
| `UserStore.GetUser` | src/main/java/com/shyammalani/cucumber/resource/UserController.java:51-62 | 200 iff the email is a key, with the stored user as body; 404 with no body iff it is not |
| `UserStore.DeleteUser` | src/main/java/com/shyammalani/cucumber/resource/UserController.java:67-78 | the key set loses exactly the email and every remaining value is unchanged; 200 with the previously stored user iff it was present, else 404 with no body |
| `UserStore.UpdateUser` | src/main/java/com/shyammalani/cucumber/resource/UserController.java:83-94 | the key set never changes and no other key's value does; when the path email is a key its entry becomes the body (whatever the body's email) and 200 returns it; otherwise 404, no body, table unchanged |
| `UserStore.Run` | src/main/java/com/shyammalani/cucumber/resource/UserController.java:26-94 | handling a sequence of requests on the one table gives one response per request, and only keys that were there or that a request named can be keys afterwards |
| `UserStore.ApplyPreservesSelfKeyed` | src/main/java/com/shyammalani/cucumber/resource/UserController.java:42-92 | create, get, delete, and an update whose body carries the path email, keep every entry keyed by its own email |
| `UserStore.RunPreservesSelfKeyed` | src/main/java/com/shyammalani/cucumber/resource/UserController.java:35-94 | from a self-keyed table, any sequence of requests whose updates carry the path email leaves the table self-keyed |
| `UserStore.UpdateMayBreakSelfKeyed` | src/main/java/com/shyammalani/cucumber/resource/UserController.java:86-93 | an update of a@x.com with a body for b@x.com succeeds and leaves an entry whose key is not its own email |
| `UserStore.RunLeavesOtherKeys` | src/main/java/com/shyammalani/cucumber/resource/UserController.java:38-92 | a sequence of requests none of which names key k leaves k's presence and value as they were |
| `UserStore.RunWithoutPostInsertsNothing` | src/main/java/com/shyammalani/cucumber/resource/UserController.java:51-94 | gets, deletes and updates never add a key, over any sequence of them |
| `UserStore.SecondCreateConflicts` | src/main/java/com/shyammalani/cucumber/resource/UserController.java:38-45 | a first create of a new email gives 201; a second with the same email gives 409 and the first user stays stored |
| `UserStore.GetAbsentIsNotFound` | src/main/java/com/shyammalani/cucumber/resource/UserController.java:54-58 | fetching an email that is not a key gives 404 with no body |
| `UserStore.DeleteIsFinal` | src/main/java/com/shyammalani/cucumber/resource/UserController.java:70-75 | after a delete, a get of that email gives 404 and a second delete gives 404 and changes nothing |
| `UserStore.UpdateThenGet` | src/main/java/com/shyammalani/cucumber/resource/UserController.java:86-93 | after a successful update, a get of the path email returns the new user |
| `UserStore.CreateThenDelete` | src/main/java/com/shyammalani/cucumber/resource/UserController.java:42-77 | deleting what a create just stored restores the old table and returns the created user |
| `UserStore.DeleteThenCreate` | src/main/java/com/shyammalani/cucumber/resource/UserController.java:38-77 | re-creating the user a delete returned (when it was keyed by its own email) restores the table with 201 |
| `UserStore.CrudScenario` | src/main/java/com/shyammalani/cucumber/resource/UserController.java:35-94 | create, duplicate create, get, update, delete, get from an empty table answer 201, 409, 200, 200, 200, 404 with the expected bodies and end empty |
| `UserResource.UserController.constructor` | src/main/java/com/shyammalani/cucumber/resource/UserController.java:26 | a new controller's table is empty |
| `UserResource.UserController.CreateUser` | src/main/java/com/shyammalani/cucumber/resource/UserController.java:35-46 | present email: 409, no body, `userMap == old(userMap)`; absent: 201 with the user and `userMap == old(userMap)[user.email := user]`; agrees with `UserStore.CreateUser` |
| `UserResource.UserController.GetUser` | src/main/java/com/shyammalani/cucumber/resource/UserController.java:51-62 | 200 with `userMap[email]` when present, else 404 with no body; changes nothing (no modifies clause) |
| `UserResource.UserController.DeleteUser` | src/main/java/com/shyammalani/cucumber/resource/UserController.java:67-78 | `userMap == old(userMap) - {email}`; 200 with the old entry when present, else 404 with the table unchanged; agrees with `UserStore.DeleteUser` |
| `UserResource.UserController.UpdateUser` | src/main/java/com/shyammalani/cucumber/resource/UserController.java:83-94 | absent path email: 404, table unchanged; present: 200 with the body and `userMap == old(userMap)[email := user]`, keyed by the path email; agrees with `UserStore.UpdateUser` |

## Left out

- Bean validation of the create body and its 400 response: it is done by the web framework against a `User` model class that is not part of this model, so create accepts any `User`.
- `User` fields other than the email: the `User` model class is not part of this model; the other properties are an uninterpreted `profile` map.
- Null emails and null bodies: the concurrent map underneath rejects null keys, which the framework's validation presumably excludes; emails here are always strings.
- Concurrency: the table is a concurrent map in the source, and create's check and insert are two separate steps that can interleave with another request; the model handles requests one at a time.
- Routing, JSON (de)serialisation and the documentation annotations: framework transport, not behaviour of the controller.
- Logging calls: side effects only.
- The documentation-generation configuration (`SwaggerConfig.java`): configuration of an external library with no logic.
