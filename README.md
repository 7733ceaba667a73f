# JobTrackR client state, in Dafny

This project models the browser side of JobTrackR, a job-application tracker. It covers two React components.

- **`Dashboard`** keeps a local copy of the user's job records. On mount it checks for a stored token and runs two startup requests (a protected probe and the job list), joined with `Promise.all`. It sorts the fetched list by application date, latest first. It prepends a created record, filters out a deleted id and replaces an updated id. It has a single edit mode with a status/notes draft. It shows the first five records unless "show all" is on.
- **`Signup`** submits the credentials. It then shows either a fixed success message, which clears the inputs and schedules a redirect, or the server's error text, falling back to "Signup failed".

## How it is built

Each component is a class whose fields are the component's `useState` variables. Each event handler is a method.

- A `State()` function snapshots all the fields. Each method's postcondition gives the whole new state as an update of `old(State())`, so everything it does not mention is unchanged.
- Requests are recorded in a `requests` (or `sent`) field, together with their bodies. Their outcomes are method parameters. `Reply<T>` is `Ok(body)`, `NotOk` or `Rejected(reason)`:
  - `NotOk` means `res.ok` was false, so the handler throws its own text ("Failed to add job", …).
  - `Rejected` means `fetch` or `res.json()` rejected, and `reason` is the error's message.
  - An `Ok` body is assumed well-formed; see "## Left out".
- Navigation and the delayed redirect are recorded in fields, not performed.
- The list transforms are pure functions with lemmas: the sort (`DateSort`), prepend/filter/map (`JobList`) and the page slice (`Pagination`).
- The in-place sort of the copied array is the method `DateSort.SortedCopy`. It is an insertion sort on an `array`, proved equal to the function `SortByDate`.
- `SortByDate` is proved latest-first, a permutation of its input, and stable: for every date, the records of that date keep the server's order. This matches the stable `Array.prototype.sort` the component relies on.
- A missing `date_applied` compares as `new Date(0)`. So an undated record ties with 1970-01-01 and sorts after every later date.

Where the code and the design description differ, the model follows the code:
- A failed load leaves `jobs` as it was; it does not empty it. The list starts empty, so on first mount the two agree.
- The "View More"/"View Less" buttons are rendered only inside the table branch, i.e. when not loading and the list is non-empty.
- "View Less" is shown whenever "show all" is on, whatever the length. So after "View More" on six records and one delete, five rows are shown together with "View Less"; a short list hides both buttons only while "show all" is off.
- With no token, the mount effect returns before `setLoading(false)`, so `loading` stays at its initial `true`.
- An empty stored token counts as no token (`!token`).
- `handleDelete` does not clear `error` before its request; the other handlers that send a request do.
- Missing dates are described as the earliest possible date, but the code keys them as `new Date(0)`. So a record dated before 1970-01-01 sorts after every undated record.
- The design has the client persist the token on signup success. `handleSignup` only shows the success message, clears the inputs and schedules `navigate("/")`; it stores nothing.
- In `handleSignup`, a rejection of `fetch` or of `response.json()` escapes the handler after both messages were cleared. This happens, for example, on an error page that is not JSON. Neither message is then shown.

## Model

| member | source | states |
|---|---|---|
| `JsValues.Truthy` | frontend/src/Dashboard.js:27 | a nullable string is truthy exactly when it is present and non-empty, which is how `!token` treats the stored token |
| `JsValues.OrElse` | frontend/src/Dashboard.js:121 | `x || fallback` on a nullable string: the value when present and non-empty, else the fallback; the result is non-empty exactly when one of them is |
| `JsValues.FailureMessage` | frontend/src/Dashboard.js:37-57 | the error a handler's `.catch` stores: the handler's own thrown text when `res.ok` is false, the rejection's message when `fetch` or `res.json()` rejected |
| `JobRecords.SetField` | frontend/src/Dashboard.js:67 | the named create-form input takes the new value and every other input keeps its own |
| `JobRecords.SetEditField` | frontend/src/Dashboard.js:131 | the named edit-draft field takes the new value and the other keeps its own |
| `JobRecords.DraftOf` | frontend/src/Dashboard.js:121 | the edit draft copies the record's status; its notes are "" exactly when the record's notes are null or empty, and are the record's notes otherwise |
| `DateSort.DateKey` | frontend/src/Dashboard.js:50-51 | the comparator's key: the record's day when `date_applied` is set, otherwise day 0, the epoch of `new Date(0)` |
| `DateSort.SortByDate` | frontend/src/Dashboard.js:49-53 | the sorted copy has the same length and is a permutation (same multiset) of the fetched list |
| `DateSort.SortByDateSorted` | frontend/src/Dashboard.js:49-53 | the sorted copy is latest first, a missing date comparing as day 0 |
| `DateSort.SortByDateStable` | frontend/src/Dashboard.js:49-53 | for every date, the records of that date (undated ones alongside 1970-01-01) appear in the server's order |
| `DateSort.SortByDateOfSorted` | frontend/src/Dashboard.js:49-53 | a list that is already latest first comes back unchanged |
| `DateSort.InsertLastSorted` | frontend/src/Dashboard.js:49-53 | one insertion step keeps a latest-first list latest first |
| `DateSort.InsertLastPermutes` | frontend/src/Dashboard.js:49-53 | one insertion step adds exactly the inserted record |
| `DateSort.InsertAt` | frontend/src/Dashboard.js:49 | one in-place pass moves `a[i]` left past every earlier record dated strictly before it, stopping at the first dated no earlier; the prefix becomes the old prefix with `a[i]` inserted at the returned position, and the rest of the array is untouched |
| `DateSort.SortedCopy` | frontend/src/Dashboard.js:49 | copying the list into an array and insertion-sorting it in place yields exactly `SortByDate` of the list |
| `JobList.RemoveById` | frontend/src/Dashboard.js:114 | after a delete no record carries the id, and exactly the records carrying it are gone (length drops by their count) |
| `JobList.RemoveByIdMembers` | frontend/src/Dashboard.js:114 | a record is kept if and only if it was in the list and its id differs |
| `JobList.RemoveByIdAppend` | frontend/src/Dashboard.js:114 | filtering distributes over concatenation, so the kept records stay in their relative order |
| `JobList.RemoveByIdAbsent` | frontend/src/Dashboard.js:114 | deleting an id no record carries leaves the list unchanged |
| `JobList.CountIdUnique` | frontend/src/Dashboard.js:114 | with unique ids a delete removes at most one record |
| `JobList.RemoveByIdKeepsUnique` | frontend/src/Dashboard.js:114 | a delete keeps ids unique |
| `JobList.RemoveByIdKeepsSorted` | frontend/src/Dashboard.js:114 | a delete keeps a latest-first list latest first |
| `JobList.ReplaceById` | frontend/src/Dashboard.js:150-152 | an update keeps the length; each record whose id matches becomes the server's record and every other record is unchanged at its position |
| `JobList.ReplaceByIdAbsent` | frontend/src/Dashboard.js:151 | updating an id no record carries leaves the list unchanged |
| `JobList.ReplaceByIdSingle` | frontend/src/Dashboard.js:151 | with unique ids exactly the one matching position changes, and ids stay unique when the server keeps the id |
| `JobList.PrependSorted` | frontend/src/Dashboard.js:89 | prepending never re-sorts: the result is latest first exactly when the list was empty or the new record is dated no earlier than the old first one |
| `JobList.InEditMode` | frontend/src/Dashboard.js:240 | a row is in edit mode exactly when `editingJobId` equals its record's id |
| `JobList.AtMostOneInEditMode` | frontend/src/Dashboard.js:240 | one `editingJobId` puts at most one row into edit mode when ids are unique |
| `Pagination.JobsToShow` | frontend/src/Dashboard.js:158 | the shown rows are a prefix of the list, all of it with "show all" on, at most five otherwise |
| `Pagination.TableShown` | frontend/src/Dashboard.js:216-220 | the table is rendered exactly when not loading and the list is non-empty |
| `Pagination.ViewMoreShown` | frontend/src/Dashboard.js:297 | "View More" is rendered exactly when the table is, the list has more than five records and "show all" is off |
| `Pagination.ViewLessShown` | frontend/src/Dashboard.js:302 | "View Less" is rendered exactly when the table is and "show all" is on, whatever the length |
| `Pagination.ViewMoreExactlyWhenHidden` | frontend/src/Dashboard.js:297-306 | with the table rendered, "View More" appears exactly when a record is hidden, never together with "View Less", and "View Less" means every record is shown |
| `Pagination.SmallListHasNoToggle` | frontend/src/Dashboard.js:297-306 | with at most five records and "show all" off, all are shown and neither button appears |
| `Pagination.ViewLessOnShortList` | frontend/src/Dashboard.js:302-306 | with "show all" on and one to five records, all are shown and "View Less" is visible while "View More" is not |
| `Pagination.SixRecords` | frontend/src/Dashboard.js:297-306 | six loaded records: five rows and "View More"; toggled, six rows and "View Less" |
| `Startup.JoinStartup` | frontend/src/Dashboard.js:33-47 | the join loads exactly when both requests succeed, taking the probe's message (or "") and the fetched list; otherwise its one error is the message of a request that failed, and of the failed one when only one failed |
| `DashboardView.Dashboard.constructor` | frontend/src/Dashboard.js:6-24 | the initial state: no records, loading, empty create form with status "applied", nothing in edit mode |
| `DashboardView.Dashboard.Mount` | frontend/src/Dashboard.js:26-31 | without a token it only navigates to "/"; with one it sends both startup requests and takes the sorted list or the one error, and loading is over |
| `DashboardView.Dashboard.SettleStartup` | frontend/src/Dashboard.js:47-58 | on success the message, the sorted list (latest first, a permutation of the fetched one) and a cleared error; on failure only the error; loading false in both |
| `DashboardView.Dashboard.Logout` | frontend/src/Dashboard.js:61-64 | the stored token is removed and the view navigates to "/" |
| `DashboardView.Dashboard.HandleChange` | frontend/src/Dashboard.js:66-69 | one input of the draft changes and the error is cleared |
| `DashboardView.Dashboard.HandleSubmit` | frontend/src/Dashboard.js:71-101 | posts the current draft; on success the new record is prepended and the form reset; on failure list and form are kept and the error set; submitting ends false |
| `DashboardView.Dashboard.HandleDelete` | frontend/src/Dashboard.js:103-117 | declined: nothing changes; confirmed: sends the delete and then filters the id out, or keeps the list and sets the error |
| `DashboardView.Dashboard.StartEdit` | frontend/src/Dashboard.js:119-123 | the record becomes the one in edit mode with a fresh draft overwriting any previous one, and the error is cleared |
| `DashboardView.Dashboard.CancelEdit` | frontend/src/Dashboard.js:125-128 | leaves edit mode with an empty draft |
| `DashboardView.Dashboard.HandleEditChange` | frontend/src/Dashboard.js:130-132 | one field of the edit draft changes |
| `DashboardView.Dashboard.HandleEditSubmit` | frontend/src/Dashboard.js:134-156 | puts the current draft; on success replaces the matching records and leaves edit mode; on failure list and edit mode are kept and the error set |
| `DashboardView.Dashboard.ShowMore` | frontend/src/Dashboard.js:298 | "show all" turns on and nothing else changes |
| `DashboardView.Dashboard.ShowLess` | frontend/src/Dashboard.js:303 | "show all" turns off and nothing else changes |
| `SignupView.Signup.constructor` | frontend/src/Signup.js:6-9 | all inputs and messages start empty |
| `SignupView.Signup.SetUsername` | frontend/src/Signup.js:44 | only the username changes |
| `SignupView.Signup.SetPassword` | frontend/src/Signup.js:51 | only the password changes |
| `SignupView.Signup.HandleSignup` | frontend/src/Signup.js:12-34 | clears both messages and sends the credentials; ok: success text, inputs cleared, redirect to "/" after 2000 ms scheduled; not ok: the server's `msg` or "Signup failed", inputs kept; after a response exactly one message is shown; a redirect is scheduled only on success |

## Left out

- HTTP, `fetch`, JSON encoding and the `Authorization: Bearer` header are not modelled. Each request is a recorded `Request` value, and its outcome is a `Reply` parameter.
- Async interleaving is not modelled. Each handler's request and its settlement happen in one method call. So states while a request is in flight (`submitting` or `loading` true) cannot be observed, and no other handler can run in between.
- The `Promise.all` race is not modelled. Which rejection wins when both startup requests fail is the boolean parameter `probeSettlesFirst`.
- Browser and library effects are not modelled:
  - `localStorage` is the `token` field.
  - `window.confirm` is a boolean parameter.
  - `useNavigate` is the recorded `navigations`.
  - `setTimeout` is the recorded `scheduled` list; the timer never fires.
  - `e.preventDefault()` is not modelled.
- JSX rendering, styling and the `required` attributes are not modelled. Only which rows and toggle buttons are shown is modelled, in `Pagination`.
- JavaScript `Date` parsing is not modelled. `date_applied` is an optional day number, and an invalid date (`NaN`, which makes the comparator inconsistent) is not modelled.
- `DateSort.SortedCopy` uses insertion sort; the JavaScript engine's own algorithm is not modelled. The model's result is proved sorted, a permutation and stable. The proof that these three properties determine the result uniquely is left out.
- Reply bodies are assumed well-formed: the probe body an object, the list body an array of records with non-null elements, created and updated records objects, and the signup body an object whose `msg` is a string or absent. The source behaves differently on other bodies, and the model does not capture it:
  - A `null` probe body makes `messageData.message` throw before anything is set, so only `error` is set.
  - A list body that is not an array (the backend's own `GET /jobs/` stub returns `{"jobs": []}`) makes `[...jobsData]` throw after `setMessage`. A `null` list element makes `a.date_applied` throw at the same point. `.catch` then sets `error`, so `message` is set, `error` is set and `jobs` is unchanged, a state `SettleStartup` cannot produce.
  - In `handleSignup` a `null` body makes `data.msg` throw, and a `msg` that is not a string is stored as the error by `data.msg || "Signup failed"`. `SignupReply` cannot express either.
- The backend (Flask app, auth and jobs routes, SQLAlchemy models, password hashing) is not part of this model. The `Job` datatype follows the record shape the server serialises, except that `status` is a plain string. The server's column is nullable with default 'applied', and a `null` status, which `DraftOf` would copy into the edit draft, is not modelled.
