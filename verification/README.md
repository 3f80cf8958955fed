# kimai_tool in Dafny

A model of the three scripts of kimai_tool, a set of helpers around a Kimai
time-tracking server:

- **Provisioning** (`load_data_kimai.py`). Each row of an input file names a
  client, a project, an optional project number and an activity. The script
  looks each one up by key on the server and reuses the id it finds. If the
  key is missing, it posts a new record, then threads the ids forward:
  client → project → activity. The model is in `kimai_api.dfy` and
  `provisioning.dfy`:
  - The server is a `Store` holding three tables in listing order.
  - `api_request` is `KimaiApi.ApiRequest`. It maps a store, a request and a
    status code to a reply body and the next store.
  - Each create-or-reuse call returns an `Outcome`: the id it got, the store
    afterwards, and the requests it sent.
  - `provisioning_properties.dfy` proves how the calls fit together: reuse,
    idempotence of a row and of a whole file, how failures propagate, which
    key each entity is looked up by, and that ids and lookup keys stay unique.
- **Timesheet report** (`test_list_activity.py`). The script fetches the
  timesheet entries and looks up each project's customer once, through a
  cache. It sums durations per day and customer, then prints the days in
  sorted order. The model is in `timesheets.dfy` and `report.dfy`, with
  proofs in `timesheet_properties.dfy`:
  - The nested `defaultdict` becomes a sequence of buckets in first-insertion
    order.
  - The aggregation is proved against independent reference totals
    (`Total`, `EntryKeys`, `SumDurations`).
  - The script crashes with `TypeError` when a project's details come back
    without `parentTitle`, because the customer is then `{}` and cannot be a
    dictionary key. The model gives this case as the result
    `Failure(Unhashable(p))`.
- **Calendar conversion** (`test_convert_ics_csv.py`). The script derives one
  record per calendar event. The final status comes from the organizer, the
  participation status and the event status, and a mail link is stripped
  from the organizer. The model is in `ics_events.dfy`.

`wrappers.dfy` holds `Option` and `Result`. `strings.dfy` holds the string
operations the scripts rely on:
- slicing `s[:n]`;
- `split(sep)[0]`;
- a prefix test, for the `(?:mailto:)?` group of the pattern at line 18 of `test_convert_ics_csv.py` and the "PN-" prefix built at line 112 of `load_data_kimai.py`;
- Python's ordering of strings, and `sorted` over distinct keys.

When a row leaves PROJET_NUMBER empty, line 112 of `load_data_kimai.py`
synthesizes the number `PN-<project[:3]>-<client[:3]>`, with a hyphen between
the two three-letter prefixes.

## Model

| member | source | states |
|---|---|---|
| KimaiApi.ApiRequest | load_data_kimai.py:14-22 | A status other than 200/201 yields the empty object and leaves the server unchanged. For a well-formed request, the body is empty exactly when the status is rejected. An accepted listing changes nothing. |
| KimaiApi.FailedCallHasNoId | load_data_kimai.py:19-22 | `.get("id")` on the empty reply of a failed call gives no id. |
| KimaiApi.Index | load_data_kimai.py:27 | The dictionary comprehension's keys are exactly the keys of the entries. Each key maps to the id of the last entry with that key, so a later duplicate overwrites an earlier one. |
| Provisioning.CustomerLookup | load_data_kimai.py:24-27 | A name is a key of the customer index exactly when some listed customer has it. It maps to the id of the last such customer. |
| Provisioning.ActivityLookup | load_data_kimai.py:24-27 | The same for the activity index. |
| Provisioning.ProjectLookup | load_data_kimai.py:53-58 | A (name, customer id) pair is a key of the project index exactly when some listed project has both. It maps to the last such project. |
| Provisioning.ListedCustomers | load_data_kimai.py:24-27 | A failed customer listing reads as an empty index. An accepted one reads as the index of the whole table. Listing changes nothing. |
| Provisioning.ListedProjects | load_data_kimai.py:53-58 | A failed project listing reads as an empty index. Listing changes nothing. |
| Provisioning.ListedActivities | load_data_kimai.py:92 | A failed activity listing reads as an empty index. Listing changes nothing. |
| Provisioning.PostCustomer | load_data_kimai.py:36-37 | One POST with country FR, currency EUR, timezone Europe/Paris and visible set. When accepted, a customer is appended under an id not yet used. When rejected, there is no id and no change. |
| Provisioning.CreateClient | load_data_kimai.py:29-42 | The customer listing is always sent first. A listed name reuses the id of its last customer: only the listing is sent and nothing changes. Otherwise exactly one POST follows. It appends one customer with the fixed defaults under a fresh id, or returns no id and changes nothing when rejected. Projects and activities are never touched. |
| Provisioning.UpdateProjectNumber | load_data_kimai.py:45-51 | Exactly one PATCH of `projects/{id}`. When accepted, only the project with that id gets the number. Other tables and other projects keep their values. |
| Provisioning.SetNumberOnLast | load_data_kimai.py:83-85 | Patching the number of a freshly appended project changes that project alone. |
| Provisioning.PostProject | load_data_kimai.py:69-87 | The POST is visible with global activities and is under the given customer. When accepted, one project is appended under a fresh id. A PATCH follows exactly when the number is non-empty, and the number is set only when that PATCH is accepted. A rejected POST sends nothing more and changes nothing. |
| Provisioning.CreateProject | load_data_kimai.py:61-87 | Reuse is keyed on (name, customer id). A hit sends only the listing and changes nothing. A miss is the listing followed by the creation half. At most one project is added and existing projects keep their values. Every project posted is under the given customer. |
| Provisioning.PostActivity | load_data_kimai.py:97-98 | One POST of a visible activity linked to the given project. When accepted, it is appended under a fresh id. When rejected, there is no id and no change. |
| Provisioning.CreateActivity | load_data_kimai.py:90-103 | Reuse is keyed on the name alone. A hit sends only the listing and changes nothing. A miss posts exactly one activity, which is appended under a fresh id, or no change when rejected. Customers and projects are never touched. |
| Provisioning.ProjectNumber | load_data_kimai.py:112 | A non-empty PROJET_NUMBER is kept verbatim. Otherwise the number starts with "PN-", is made of the first three characters of the project and of the client joined by "-", and is 4 to 10 characters long. It is never empty, so a created project is always followed by a PATCH. |
| Provisioning.ProcessRow | load_data_kimai.py:109-122 | A row sends 3 to 7 requests, with the customer listing first and both other listings among them. Each table grows by at most one record, and existing records keep their values. The ids it threads forward are stated by `RowThreadsIds` and `RowLinksNewRecords`. |
| Provisioning.ProcessCsv | load_data_kimai.py:105-122 | A file of n rows sends between 3n and 7n requests. Each table grows by at most n records, and earlier records keep their values. |
| ProvisioningProperties.ClientFoundAfterwards | load_data_kimai.py:29-42 | Once `create_client` returned an id, that id belongs to the last customer of that name, so the next lookup finds it. |
| ProvisioningProperties.ProjectFoundAfterwards | load_data_kimai.py:61-87 | The same for a project and its (name, customer) key. |
| ProvisioningProperties.ActivityFoundAfterwards | load_data_kimai.py:90-103 | The same for an activity and its name. |
| ProvisioningProperties.ClientReused | load_data_kimai.py:31-34 | When the listing succeeds and the name is listed, the call returns the last such customer's id, sends only the listing and changes nothing. |
| ProvisioningProperties.ProjectReused | load_data_kimai.py:63-67 | The same for a listed (name, customer) pair. |
| ProvisioningProperties.ActivityReused | load_data_kimai.py:92-95 | The same for a listed activity name. |
| ProvisioningProperties.RowLeavesIdsFindable | load_data_kimai.py:116-122 | After a row that obtained all three ids, each id is the last record of its key in the resulting store. |
| ProvisioningProperties.RowReused | load_data_kimai.py:109-122 | A row whose three keys are all listed returns their ids, changes nothing and sends exactly the three listings. |
| ProvisioningProperties.RowIdempotent | load_data_kimai.py:105-122 | Processing a row again after it obtained all three ids, when the second pass's three listings succeed, returns the same ids and changes nothing. It sends the three listings only. A failed listing on the second pass can post again, as `FailedListingDuplicates` shows. |
| ProvisioningProperties.PostProjectSendsThreaded | load_data_kimai.py:77-85 | The creation half of `create_project` posts under its customer, and its only PATCH targets the id the POST returned and carries the number it was given. |
| ProvisioningProperties.ProjectSendsThreaded | load_data_kimai.py:61-87 | The same for the whole of `create_project`: every posted project is under the given customer, and any PATCH targets the returned id with the given number. When the listing succeeds and names the (name, customer) pair, no PATCH is sent at all, so a reused project is never patched. |
| ProvisioningProperties.RowThreadsIds | load_data_kimai.py:112-122 | Every request of a row carries the ids the row obtained: a posted project is under the row's client id, a posted activity is under the row's project id, and a PATCH sets the row's project number on the row's project id. This holds on every path, failures included. |
| ProvisioningProperties.RowLinksNewRecords | load_data_kimai.py:116-122 | A project the row creates is the row's project id, named after the row and under the row's client id. An activity the row creates is the row's activity id, named after the row and linked to the row's project id. |
| ProvisioningProperties.FailedClientPropagates | load_data_kimai.py:116-122 | When the client step yields no id, the row still lists projects and activities. Any project it posts has no customer. |
| ProvisioningProperties.FailedListingDuplicates | load_data_kimai.py:19-37 | A failed customer listing reads as an empty index. An existing client is then posted again, and the store ends with two customers of that name. |
| ProvisioningProperties.ProjectNotReusedAcrossCustomers | load_data_kimai.py:61-77 | A project with the same name under another customer is not reused. A new project is posted under a different id, and the other project is left as it was. |
| ProvisioningProperties.ActivityReusedAcrossProjects | load_data_kimai.py:90-95 | An activity with the same name is reused even when it is linked to another project. Nothing is changed, so its link is kept. |
| ProvisioningProperties.ClientKeepsInvariants | load_data_kimai.py:29-42 | `create_client` keeps ids distinct in every table. It also keeps lookup keys distinct when its listing succeeds. |
| ProvisioningProperties.ProjectKeepsInvariants | load_data_kimai.py:61-87 | The same for `create_project`. |
| ProvisioningProperties.ActivityKeepsInvariants | load_data_kimai.py:90-103 | The same for `create_activity`. |
| ProvisioningProperties.RowKeepsInvariants | load_data_kimai.py:109-122 | The same for one row. |
| ProvisioningProperties.CsvKeepsIdsUnique | load_data_kimai.py:105-122 | Over a whole file, ids stay distinct whatever the replies. |
| ProvisioningProperties.CsvKeepsKeysUnique | load_data_kimai.py:105-122 | Over a whole file, no lookup key is ever duplicated as long as every listing succeeds. |
| ProvisioningProperties.SuccessfulRowHasIds | load_data_kimai.py:116-122 | A row whose create calls all succeed obtains all three ids. |
| ProvisioningProperties.RowMakesPresent | load_data_kimai.py:109-122 | Such a row leaves its client, its project under that client and its activity in the store. |
| ProvisioningProperties.FirstRunMakesAllPresent | load_data_kimai.py:105-122 | After a run whose create calls all succeed, every row of the file is present in the store. |
| ProvisioningProperties.ClientKeepsLast | load_data_kimai.py:29-42 | When its listing succeeds, `create_client` leaves every name's last customer in place under the same id, even when names repeat. A listed name is reused, and a new customer's name was not listed. |
| ProvisioningProperties.ProjectKeepsLast | load_data_kimai.py:61-87 | The same for `create_project` and every (name, customer) key. |
| ProvisioningProperties.ActivityKeepsLast | load_data_kimai.py:90-103 | The same for `create_activity` and every activity name. |
| ProvisioningProperties.RowKeepsFound | load_data_kimai.py:109-122 | A row whose listings succeed leaves another row's three lookups finding the same ids. |
| ProvisioningProperties.CsvKeepsFound | load_data_kimai.py:105-122 | The same over a whole file whose listings all succeed. |
| ProvisioningProperties.FirstRunMakesAllFound | load_data_kimai.py:105-122 | After a run whose listings and create calls all succeed, every row's three lookups find an id, whatever the store held before, repeated names included. |
| ProvisioningProperties.FoundRunChangesNothing | load_data_kimai.py:105-122 | A run over rows whose keys are all found, with successful listings, leaves the store as it was and sends only GET requests. |
| ProvisioningProperties.CsvIdempotent | load_data_kimai.py:105-122 | Running the same file a second time after a fully successful first run, when every listing of the second run succeeds, creates nothing, changes nothing and only lists. This holds from any starting store, including one where names repeat. |
| Strings.Take | load_data_kimai.py:112 | `s[:n]` is a prefix of `s` of length min(n, len(s)). |
| Strings.Before | test_list_activity.py:42 | `split("T")[0]` is a prefix without the separator. It is followed by the separator unless it is the whole string. |
| Strings.LessIrreflexive | test_list_activity.py:56 | No string precedes itself in Python's order. |
| Strings.LessTotal | test_list_activity.py:56 | Python's string order is total on distinct strings. |
| Strings.LessTransitive | test_list_activity.py:56 | Python's string order is transitive. |
| Strings.Sort | test_list_activity.py:56 | `sorted` over distinct keys yields the same keys in strictly ascending order. |
| TimesheetProperties.AddToAmount | test_list_activity.py:50 | `data[date][customer] += d` raises the amount of that key by d and leaves every other key's amount alone. |
| TimesheetProperties.AddToSum | test_list_activity.py:50 | The same step raises the grand total by d. |
| TimesheetProperties.AddToKeys | test_list_activity.py:50 | The step adds the key when it is new, and keys stay distinct. |
| TimesheetProperties.StepKeepsCache | test_list_activity.py:45-48 | A project is fetched only when it is not cached. The cache maps every project seen so far to the customer its details give, and the fetch log lists each cached project exactly once. |
| TimesheetProperties.AddKeepsBuckets | test_list_activity.py:49-50 | Adding an entry keeps every bucket equal to the reference total of its day and customer, keeps keys distinct and keeps the grand total. |
| TimesheetProperties.StepValid | test_list_activity.py:41-50 | One loop iteration keeps the whole invariant, one entry further along. |
| TimesheetProperties.ProcessDataValid | test_list_activity.py:36-52 | `process_data` keeps its invariant over the whole input. |
| TimesheetProperties.StepSucceedsIff | test_list_activity.py:45-50 | An iteration fails exactly when the customer of its entry's project is the empty object. |
| TimesheetProperties.ProcessDataFailsIff | test_list_activity.py:31-50 | `process_data` fails exactly when some entry's project details come back with status 200 but without `parentTitle`. |
| TimesheetProperties.ProcessDataTotals | test_list_activity.py:36-52 | Each (day, customer) cell holds the summed durations of exactly the entries of that day whose project belongs to that customer. Cells exist only for such pairs, no two share a key, and no seconds are lost or invented. |
| TimesheetProperties.ProcessDataFetchesOnce | test_list_activity.py:39-48 | Project details are fetched once per distinct project and only for projects of the entries. Every entry is filed under the customer its project's details give. |
| TimesheetProperties.FailedLookupIsUnknownClient | test_list_activity.py:32-34 | A failed project lookup files the entry under "Client inconnu". |
| Report.Dates | test_list_activity.py:50-56 | The outer dictionary's keys are distinct. They are exactly the days of the buckets. |
| Report.LinesOnContents | test_list_activity.py:58 | A day's printed lines are exactly that day's (customer, total) cells. |
| Report.DisplayAscending | test_list_activity.py:56 | Days are shown in strictly ascending order, so each day is shown once. |
| Report.DisplayDaysHaveBuckets | test_list_activity.py:56-59 | Only days that have cells are shown. |
| Report.DisplayShowsEveryBucket | test_list_activity.py:56-59 | Every cell is shown under its own day. |
| Report.DisplayLinesFromBuckets | test_list_activity.py:56-59 | Every line shown comes from a cell of that day. |
| Report.FailedFetchShowsNothing | test_list_activity.py:61-65 | When the timesheet request fails, nothing is looked up or shown. |
| Report.ListActivityOutcome | test_list_activity.py:61-65 | With entries to show, the script succeeds exactly when every project's customer is hashable. It then fetches each entry's project exactly once, fetches no other project, and shows the days in ascending order. |
| IcsEvents.OrganizerValue | test_convert_ics_csv.py:18 | The organizer group is never empty. A leading "mailto:" followed by more text is dropped, and any other text is kept whole. |
| IcsEvents.OrganizerExamples | test_convert_ics_csv.py:18 | Concrete cases, including "mailto:" alone, which the pattern keeps whole. |
| IcsEvents.Resolve | test_convert_ics_csv.py:20-26 | Without an organizer the result is CONFIRMED and ME. With one, PARTSTAT wins over STATUS, and "Inconnu" is the result exactly when neither is present. The status is always one of the seven known values. |
| IcsEvents.ToRecord | test_convert_ics_csv.py:28-34 | A missing title, start or end becomes "". The status and organizer are those resolved. |
| IcsEvents.ParseIcs | test_convert_ics_csv.py:12-36 | One record per event block, in file order, each being that block's record. |
| IcsEvents.RecordMatchesHeader | test_convert_ics_csv.py:38-43 | Every record has exactly the five header keys, so `DictWriter` writes it without error, with its columns in header order. |

## Left out

- HTTP transport, the server URL, the authorization header and the check of the environment variables: no behaviour beyond configuration.
- Every `print`: console messages and the `:.2f` formatting of hours.
- The server's own behaviour is an assumption, not taken from the code:
  - a rejected call changes nothing;
  - a new record gets one more than the largest id of its table;
  - a listing returns every record, with no pagination and no visibility filter;
  - a PATCH of an unknown id changes nothing;
  - a listing returns records in creation order, so a record the script creates comes after every record already there. When names repeat, which record a lookup finds depends on this: the dictionary comprehension keeps the last one. Kimai may list by name, and then the order between equal names is not known. `ClientFoundAfterwards`, `ProjectFoundAfterwards`, `ActivityFoundAfterwards`, `RowIdempotent`, the `*KeepsLast` lemmas and `CsvIdempotent` rely on this order;
  - ids are positive, so `if client_id:` and `if project_id:` are the same as "an id came back". An id of 0 would be falsy in Python and is not modelled.
- JSON decoding: reply bodies arrive as typed lists and objects. A malformed reply is not modelled, for example a missing `name` or `id` key, a listing that is not a list, or a `null` `parentTitle`.
- Reading the input file with `csv.DictReader`: rows arrive as `Row` values, and a missing column (`KeyError`) is not modelled.
- Provisioning.ProcessCsv: the status codes of the replies are parameters, one `RowReplies` per row. A row's statuses do not depend on its requests beyond that.
- TimesheetProperties.ProcessDataTotals: durations are whole seconds summed exactly. The script divides by 3600 and sums floats, so the model does not state rounding.
- Report.ListActivityOutcome: a day's lines hold seconds rather than hours with two decimals.
- The regular-expression scan of the calendar file: `findall` over the VEVENT blocks and the six searches. Each block arrives as the fields the patterns would extract. A trailing carriage return that `.+` would keep is not modelled.
- Writing the CSV file: the `;` delimiter, the header line and the file itself. One row of `DictWriter` is modelled.
- The module-level run of the calendar script, with its fixed file names, and the `__main__` block of the provisioning script.
