# injex-watch: devices, attackers and the daily attack chart

This project models the deterministic core of the injex-watch monitoring dashboard.

- **Device document** (server/models/Device.js): the `trim` setters, the IP, port and status validators, the defaults, the pre-save hook on `last_active`, and the two statics `markUnderAttack` and `clearAttackStatus`.
- **Device handlers** (server/controllers/device.js): create, list, read, update and delete over a Device collection held in memory.
- **Attacker handlers** (server/controllers/attacker.js): an Attacker collection in insertion order beside the Device collection. Creating an attacker appends its id to the first device matching each target `(ip, port)`. Deleting it pulls the id back out.
- **Daily attack chart** (client/src/scenes/daily/index.jsx, the `useMemo` body): for each calendar day in a window it counts the attackers whose `latest_attack` falls on that day, then emits the points in ascending day order.

Files:

| file | module | contents |
|---|---|---|
| api.dfy | `Api` | `Option`, `Time`, the reply type `Response`, JavaScript truthiness of a string field |
| device_schema.dfy | `DeviceSchema` | trimming; the IP pattern, both as the regular expression's structure and as an executable check |
| device_model.dfy | `DeviceModel` | status and port validators, `Device`/`Draft`, validation on save, defaults, the hook, the statics, the `DeviceCollection` class |
| device_controller.dfy | `DeviceController` | the five device handlers |
| attacker_registry.dfy | `AttackerRegistry` | target matching, push/pull reconciliation and its lemmas, ordering, the `AttackStore` class with the handlers |
| daily.dfy | `DailyAttacks` | the per-day counting loop, the day sort, the chart series |

How the model represents things:

- **Store operations.** On the Device side, `findById`, `save`, `findByIdAndUpdate` and `findByIdAndDelete` are methods of the `DeviceModel.DeviceCollection` class, which holds the documents in a map. On the attacker side, the `AttackerRegistry.AttackStore` class holds both collections as sequences, and its handler methods update them. The queries are functions over those sequences: `Attacker.findById` is `FindEntry`, `Attacker.findOne({ ip })` is `FindByIp`, `Device.findOne` and `Device.updateOne` select their device with `FirstMatch`, and each loop turn is `Pushed` or `Pulled`. All of them take the first match in sequence order.
- **Query filters.** Mongoose casts a filter through the path's setters, so the `{ ip, port }` filter of the attacker handlers has its ip trimmed (`FilterOf`) before it is compared with the stored ip.
- **Inputs from outside.** The clock (`new Date()`, `Date.now()`) is a parameter `now`. The ip-api.com geolocation answer is a parameter `lookup`.
- **Undefined fields.** A request field that may be `undefined` is an `Option`. A string field counts as truthy when it is present and non-empty.
- **Numbers.** A port as it arrives in a request or sits in a document before validation (`DeviceBody.port`, `Draft.port`) is a `real`, so fractions and out-of-range values can be expressed. A validated port (`Device.port`) and the ports of attack targets and of the devices the attacker handlers read (`Target.port`, `LinkedDevice.port`) are `int`.
- **Days.** Calendar days are integers.

The IP validator is `/^(([0-9]{1,3}\.){3}[0-9]{1,3})|(([a-f0-9:]+:+)+[a-f0-9]+)$/i`. The `^` anchor binds only to the first alternative and the `$` only to the second. So a string passes when it *starts* with a dotted quad, with no 0-255 limit and anything after it, or when it *ends* with the hex-colon form, with anything before it. `DeviceSchema.IsIpAddress` checks exactly this, and its contract proves it agrees with a literal encoding of the pattern (`IpPattern`).

The `attackers` field has two meanings in the source:

- server/models/Device.js:44-49 declares it a Boolean flag.
- server/controllers/attacker.js:42 and :111 push ids into it and pull ids out of it as if it were an array.

The model keeps both views as the source has them. `DeviceModel.Device.attackers` is a `bool`; `AttackerRegistry.LinkedDevice.attackers` is a `seq<AttackerId>`. They are not reconciled.

With no array of attackers, the daily chart's `useMemo` returns `[[]]`, which `const [formattedData] = …` destructures to `[]`, so there is no series; `DailyAttacks.DailySeries` returns `[]`.

## Model

| member | source | states |
|---|---|---|
| Api.Truthy | server/controllers/device.js:9 | JavaScript truthiness of an optional string field, as in `!name` and `if (name)` (also lines 76-86): `undefined` and `""` are falsy. Definition, no contract of its own |
| Api.Response.Code | server/controllers/device.js:10-34 | each reply kind has its fixed HTTP status; it is below 300 exactly for the 200/201 replies. `CreateDevice` and `DeleteDevice` state their replies' status codes through it |
| DeviceSchema.Trim | server/models/Device.js:5-13 | the result is the part of the string between its leading and trailing white space. Only white space is dropped, neither end of a non-empty result is white space, and the result is empty exactly when the input is blank |
| DeviceSchema.TrimmedIsFixed | server/models/Device.js:5-13 | a trimmed string has no white space at either end, and trimming an already trimmed string returns it unchanged (idempotence) |
| DeviceSchema.IsIpAddress | server/models/Device.js:14-19 | accepted exactly when the pattern matches (`IpPattern`), and exactly when the string starts with a dotted quad of 1-3 digit groups or ends with the hex-colon form |
| DeviceSchema.QuadWithoutOctetLimit | server/models/Device.js:16 | "999.999.999.999" is accepted: groups have no 255 limit |
| DeviceSchema.QuadWithTrailingText | server/models/Device.js:16 | "1.2.3.4; x" is accepted: text after a leading quad is not rejected |
| DeviceSchema.ColonFormExamples | server/models/Device.js:16 | "::1" is accepted and ":1" is rejected |
| DeviceModel.ParseStatus | server/models/Device.js:39-43 | a name is accepted exactly when it is one of the three enum names, and it maps back to that name |
| DeviceModel.StatusRoundTrip | server/models/Device.js:39-43 | every status parses back from its stored name |
| DeviceModel.PortValue | server/models/Device.js:23-34 | a port is accepted iff it is an integer with 0 <= port <= 65535, and the accepted value equals the input |
| DeviceModel.PortBoundaries | server/models/Device.js:23-34 | 0 and 65535 are accepted; -1, 65536 and 80.5 are rejected |
| DeviceModel.Validate | server/models/Device.js:5-49 | saving succeeds iff name and ip are non-empty, ip passes the pattern, the port is accepted and the status is an enum name. On success every field carries over, and a trimmed document comes out well formed |
| DeviceModel.RevalidateStored | server/models/Device.js:5-49 | a stored, well-formed device validates again to itself, so re-saving a loaded document cannot fail |
| DeviceModel.NewDocumentDefaults | server/models/Device.js:35-49 | given only name, ip and port, the document is valid iff the name is not blank, the trimmed ip passes and the port is accepted; it is then "active", `attackers` is false, `last_active` is now, and it is well formed |
| DeviceModel.Touched | server/models/Device.js:101-106 | the hook's `isModified("attackers")` rule on `last_active`. Definition, no contract of its own; `PreSave` states it |
| DeviceModel.PreSave | server/models/Device.js:101-106 | the hook changes only `last_active`: set to now when `attackers` was modified, otherwise the document is untouched |
| DeviceModel.MarkedUnderAttack | server/models/Device.js:109-119 | after marking: under attack (`isUnderAttack`, lines 135-137), "blocked", last active now; name, ip and port are kept and well-formedness is preserved |
| DeviceModel.AttackCleared | server/models/Device.js:122-132 | after clearing: not under attack, "active", last active now; name, ip and port are kept and well-formedness is preserved |
| DeviceModel.ClearUndoesMark | server/models/Device.js:109-132 | mark-then-clear equals a plain clear, and clearing twice equals clearing once at the later time |
| DeviceModel.DeviceCollection.FindById | server/controllers/device.js:53 | finds the document iff the id is stored; nothing changes |
| DeviceModel.DeviceCollection.Insert | server/controllers/device.js:30 | a new document is stored under an id not in use; nothing else changes |
| DeviceModel.DeviceCollection.Save | server/controllers/device.js:89 | the hook's result replaces the stored document, and only that one |
| DeviceModel.DeviceCollection.FindByIdAndDelete | server/controllers/device.js:102 | returns the removed document iff the id was stored; exactly that id is removed |
| DeviceModel.DeviceCollection.MarkUnderAttack | server/models/Device.js:109-119 | an absent id gives null and changes nothing; otherwise only that device becomes `MarkedUnderAttack`, and it is returned |
| DeviceModel.DeviceCollection.ClearAttackStatus | server/models/Device.js:122-132 | an absent id gives null and changes nothing; otherwise only that device becomes `AttackCleared`, and it is returned |
| DeviceModel.NewDocument | server/models/Device.js:5-49 | `new Device({...})`: the trim setters and the `status`, `last_active` and `attackers` defaults. Definition, no contract of its own; `NewDocumentDefaults` states its properties |
| DeviceController.MissingRequired | server/controllers/device.js:9 | `!name \|\| !ip \|\| port === undefined`. Definition, no contract of its own; `CreateDevice`'s contract uses it |
| DeviceController.PortOutOfRange | server/controllers/device.js:15 | the handlers' `port < 0 \|\| port > 65535` check (also line 79). Definition, no contract of its own; `CreateDevice` and `UpdateDevice` use it |
| DeviceController.CreatedDraft | server/controllers/device.js:22-28 | the document `createDevice` builds: status or "active", `last_active` now. Definition, no contract of its own; `CreateDevice` states what is stored |
| DeviceController.Assigned | server/controllers/device.js:76-87 | the in-memory document after the step-by-step assignments. Definition, no contract of its own; `UpdateDevice` is proved to build it and `UpdatedFields` states the result |
| DeviceController.CreateDevice | server/controllers/device.js:4-36 | missing name/ip/port gives a 400 and so does an out-of-range port; a document failing the schema gives a 500. In all three cases the store is unchanged. A 201 happens exactly otherwise, adding one record under a fresh id with the trimmed name and ip, the port, the status or "active", `attackers` false, and `last_active` now. The reply is a 400 exactly when a field is missing or the port is out of range |
| DeviceController.GetAllDevices | server/controllers/device.js:39-46 | returns every stored device; nothing changes |
| DeviceController.GetDeviceById | server/controllers/device.js:49-62 | 200 with the document iff the id is stored, otherwise 404; nothing changes |
| DeviceController.UpdateDevice | server/controllers/device.js:65-95 | an absent id gives a 404 and an out-of-range port a 400; a document failing the schema gives a 500. In all three cases nothing is persisted. On success only that record changes: truthy name/ip/status and a defined port replace the old values, the rest is kept, and `last_active` is now |
| DeviceController.UpdatedFields | server/controllers/device.js:76-89 | what a successful update stores, field by field, and that it is again well formed |
| DeviceController.EmptyUpdateOnlyTouches | server/controllers/device.js:76-89 | an update with an empty body always validates and changes only `last_active` |
| DeviceController.DeleteDevice | server/controllers/device.js:98-111 | removes exactly that record with a success message, or gives a 404 and changes nothing; the status code is 200 exactly when the id was stored |
| AttackerRegistry.FilterOf | server/controllers/attacker.js:36-39 | the cast `{ ip, port }` filter: the target's ip through the `trim` setter of the device's `ip` path (server/models/Device.js:10-13). Definition, no contract of its own |
| AttackerRegistry.Filters | server/controllers/attacker.js:35-45 | one cast filter per target, as many as there are targets |
| AttackerRegistry.FiltersAt | server/controllers/attacker.js:35-45 | the k-th cast filter is the cast of the k-th target |
| AttackerRegistry.FirstMatch | server/controllers/attacker.js:36-39 | the index found matches both the filter's ip and its port, and no earlier device does; no index means no device matches |
| AttackerRegistry.PaddedTargetMatches | server/controllers/attacker.js:36-39 | a target `" 10.0.0.1"`:80 finds the device stored as `"10.0.0.1"`:80 |
| AttackerRegistry.SameKeysFirstMatch | server/controllers/attacker.js:36-39 | which device a target finds depends only on the devices' ips and ports |
| AttackerRegistry.Repeat | server/controllers/attacker.js:42 | n copies of the id |
| AttackerRegistry.Without | server/controllers/attacker.js:111 | `$pull` removes every occurrence of the id and keeps every other reference; a list without the id is unchanged |
| AttackerRegistry.WithoutAppend | server/controllers/attacker.js:111 | pulling from a concatenation pulls from each part |
| AttackerRegistry.WithoutRepeat | server/controllers/attacker.js:111 | pulling an id from copies of itself leaves nothing |
| AttackerRegistry.Pushed | server/controllers/attacker.js:36-43 | one push-and-save keeps every device's ip and port |
| AttackerRegistry.PushedAll | server/controllers/attacker.js:35-45 | the whole loop keeps every device's ip and port |
| AttackerRegistry.PushedAllEffect | server/controllers/attacker.js:35-45 | each device gains the id once per target that finds it first, appended at the end. A device found by no target is unchanged; a device found at least once is last active now |
| AttackerRegistry.PushedAllRefs | server/controllers/attacker.js:35-45 | after the loop a device references only what it referenced before, or the new id |
| AttackerRegistry.Pulled | server/controllers/attacker.js:109-112 | one `updateOne` keeps every device's ip and port |
| AttackerRegistry.PulledAll | server/controllers/attacker.js:108-113 | the whole loop keeps every device's ip and port |
| AttackerRegistry.PulledAllEffect | server/controllers/attacker.js:108-113 | a device found by some target loses every occurrence of the id; any other device is unchanged; `last_active` is never touched (no hook runs) |
| AttackerRegistry.PulledAllRefs | server/controllers/attacker.js:108-113 | after the loop a device references nothing it did not reference before |
| AttackerRegistry.CreateDeleteRoundTrip | server/controllers/attacker.js:35-113 | for an id no device references, pushing for a target list and then pulling for the same list restores every device's attacker list |
| AttackerRegistry.InsertByLatest | server/controllers/attacker.js:56 | inserting one attacker lengthens the list by one and puts it, or the old head, first |
| AttackerRegistry.InsertKeepsSorted | server/controllers/attacker.js:56 | insertion keeps the list ordered by `latest_attack`, latest first |
| AttackerRegistry.InsertPermutes | server/controllers/attacker.js:56 | insertion adds exactly that attacker |
| AttackerRegistry.SortByLatest | server/controllers/attacker.js:56 | `sort({ latest_attack: -1 })`: the result is non-increasing in `latest_attack` and a permutation of the input |
| AttackerRegistry.FindEntry | server/controllers/attacker.js:68 | finds an attacker with that id, or reports that none has it |
| AttackerRegistry.FindByIp | server/controllers/attacker.js:126 | finds the first attacker with that ip, or reports that none has it |
| AttackerRegistry.Patched | server/controllers/attacker.js:82 | the merge `findByIdAndUpdate(id, req.body)` performs: each field present in the body replaces the stored one. Definition, no contract of its own; `PatchLaws` states its properties |
| AttackerRegistry.PatchLaws | server/controllers/attacker.js:82-85 | an empty update body changes nothing, and applying the same body twice equals applying it once |
| AttackerRegistry.AttackStore.CreateAttacker | server/controllers/attacker.js:5-51 | a lookup whose status is not "success" gives a 400 and changes neither collection. Otherwise a 201 and the stored attacker has the request's ip, status and targets, the looked-up location and `latest_attack` now, under an id neither in use nor referenced. The collection gains exactly that entry, and the devices are the result of the push loop |
| AttackerRegistry.AttackStore.PushToDevices | server/controllers/attacker.js:35-45 | the loop's result is `PushedAll` of the devices before it |
| AttackerRegistry.AttackStore.GetAllAttackers | server/controllers/attacker.js:53-62 | every attacker, ordered by `latest_attack` with the latest first; nothing changes |
| AttackerRegistry.AttackStore.GetAttackerById | server/controllers/attacker.js:65-76 | 200 with the attacker of that id, or 404 exactly when no attacker has it; nothing changes |
| AttackerRegistry.AttackStore.GetAttackerByIp | server/controllers/attacker.js:122-137 | 200 with the first attacker with that ip, or 404 exactly when none has it; nothing changes |
| AttackerRegistry.AttackStore.UpdateAttacker | server/controllers/attacker.js:79-95 | an absent id gives a 404 and changes nothing; otherwise only that attacker changes, as the body says, and the devices are never touched |
| AttackerRegistry.AttackStore.DeleteAttacker | server/controllers/attacker.js:98-119 | an absent id gives a 404 and changes neither collection. Otherwise exactly that entry is removed and the devices are the result of the pull loop over its targets |
| AttackerRegistry.AttackStore.PullFromDevices | server/controllers/attacker.js:107-113 | the loop's result is `PulledAll` of the devices before it |
| AttackerRegistry.AttackStore.CreateThenDelete | server/controllers/attacker.js:35-113 | creating an attacker and deleting it at once restores the Attacker collection and every device's attacker list |
| DailyAttacks.DateOnly | client/src/scenes/daily/index.jsx:48-62 | the `new Date(getFullYear(), getMonth(), getDate())` truncation to the calendar day. Definition, no contract of its own |
| DailyAttacks.InWindow | client/src/scenes/daily/index.jsx:42-65 | a row is counted when it parsed and its day lies in [start, end], both ends included. Definition, no contract of its own; `CountedDaysInWindow` and `CountOn` build on it |
| DailyAttacks.CountedDaysInWindow | client/src/scenes/daily/index.jsx:48-68 | only days within [start, end], both ends included, have a non-zero count |
| DailyAttacks.TotalIsCountedRows | client/src/scenes/daily/index.jsx:41-68 | the number of counted rows is the number of rows that parse and fall in the window |
| DailyAttacks.CountOnAppend | client/src/scenes/daily/index.jsx:67 | one more row adds one to the count of its day, and only if it parses and is in range |
| DailyAttacks.Xs | client/src/scenes/daily/index.jsx:85-87 | the days of the points, in order |
| DailyAttacks.OccursOnce | client/src/scenes/daily/index.jsx:81-83 | in a strictly ascending key list each day occurs at most once |
| DailyAttacks.SumCountsNoRows | client/src/scenes/daily/index.jsx:27 | with no rows every count is zero |
| DailyAttacks.SumCountsAppend | client/src/scenes/daily/index.jsx:67 | one more row adds to the sum over the keys the number of times its day occurs among them when it is counted, and nothing otherwise (with ascending keys that is one or zero, by `OccursOnce`) |
| DailyAttacks.SumCountsIsTotal | client/src/scenes/daily/index.jsx:67 | summed over ascending keys that cover every counted day, the day counts give the number of counted rows |
| DailyAttacks.SumYIsSumCounts | client/src/scenes/daily/index.jsx:85-87 | the chart's total is the sum of the day counts of its points |
| DailyAttacks.CountByDay | client/src/scenes/daily/index.jsx:27-69 | the dictionary holds exactly the days with a non-zero count, each mapped to its count |
| DailyAttacks.SortDays | client/src/scenes/daily/index.jsx:81-83 | the day keys in strictly ascending order, each exactly once |
| DailyAttacks.PointsInDayOrder | client/src/scenes/daily/index.jsx:81-87 | one point per dictionary entry, in strictly ascending day order, each carrying its count |
| DailyAttacks.DailySeries | client/src/scenes/daily/index.jsx:18-92 | missing data gives no series. Otherwise there is one "attacks" series whose points lie in the window in strictly ascending day order. Each point's y is that day's count and at least 1, every counted day appears, and the counts add up to the number of valid in-range rows |

## Left out

- The ip-api.com request (server/controllers/attacker.js:10-11) is network I/O. Its answer `{status, lat, lon}` is the parameter `lookup`.
- The clock (`new Date()`, `Date.now()`) is the parameter `now`. `createAttacker` reads it once for `latest_attack` and again in each device's pre-save hook; the model uses one reading for both.
- `console.log`/`console.warn` output is not modelled.
- Mongoose internals are not modelled:
  - the exact text of validation error messages (one fixed message stands for them);
  - `CastError` for malformed ids, and ObjectId format;
  - the catch-all 500/400 replies for store failures;
  - the `createdAt`/`updatedAt` timestamps.
- The Attacker schema (server/models/Attacker.js) is not part of this model. `Attacker.create` and `updateAttacker`'s `runValidators` are therefore modelled as always succeeding, and no latitude, longitude or ip-uniqueness rule is assumed.
- `AttackerRegistry.AttackStore.CreateAttacker`: a request without a `devices` array fails at the `for … of` after the attacker is already stored. That 400 path is not modelled; the target list is always a sequence.
- `DeviceController.CreateDevice` and `DeviceController.UpdateDevice`: a port that arrives as a numeric string is taken as already converted to its number; non-numeric strings are not modelled.
- `DeviceController.CreateDevice` and `DeviceController.UpdateDevice`: a port sent as JSON `null` or as a boolean is not modelled, because `DeviceBody.port` is either absent or a number.
  - A `null` port passes the handlers' checks (`null === undefined` and both range comparisons are false). It then fails the schema's `required` rule on save, so both handlers reply 500.
  - `true` and `false` are cast to 1 and 0 and stored.
- `DeviceSchema.IsSpace` covers the common white-space code points (ASCII white space, NBSP, BOM, the line and paragraph separators), not the whole Unicode `Zs` category that `String.prototype.trim` strips.
- The `toJSON`/`toObject` date formatting with `Intl.DateTimeFormat` (server/models/Device.js:53-96) is presentation only.
- Days in the daily chart are integer ordinals:
  - date-fns `parse` is an input that is either a parsed moment or `None`;
  - the `toISOString` day key (client/src/scenes/daily/index.jsx:66) is not modelled. In the UTC+7 zone local midnight is 17:00 UTC of the day before, so every key names the previous calendar day; the model keys a count by the local day itself. All keys shift by the same day, so which attackers share a key, the counts and the order are unaffected;
  - `localeCompare` on the `YYYY-MM-DD` keys is day order.
- The series colour taken from the theme and all React rendering are presentation.
- `DeviceModel.IsUnderAttack` is the `attackers === true` test itself (server/models/Device.js:135-137), so it has no contract of its own. The statics' contracts state its value after marking and clearing.
- The Express routes (server/routes/*.js) are not modelled. Several handlers imported there (statistics, toggling, bulk setting) are not defined in server/controllers/device.js, so there is no behaviour to model.
