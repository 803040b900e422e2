# LwM2M client objects and security resolver, modelled in Dafny

This project models three pieces of an LwM2M client library and proves properties of each.

- **The Time object** (IPSO object 3333, from the BC-Send tutorial).
  - Its instances sit in a list kept in ascending instance-id order.
  - Each instance has a bounded Application Type string. It can be read, written and reset.
  - Current Time reports the clock. It is declared read-write, but the write handler refuses it with Method Not Allowed.
  - A transaction copies every Application Type into a backup field, and rollback copies it back. Commit does nothing.
  - `notify` gives each instance at most one delivered Current Time notification per second. It remembers the second only when the notification was delivered, so a failed one is retried on the next call, even within the same second.
- **The Portfolio object** (LwM2M object 16, from the demo client).
  - It uses the same sorted instance list.
  - Each instance has a four-slot multi-instance Identity resource: a presence flag and a bounded string per slot.
  - A transaction takes a full copy of the instance list. Rollback puts the copy back, so creations and removals are undone too.
- **The generic security configuration resolver** of the connection layer. For one Security object instance (object 0) it:
  - reads and classifies the Security Mode;
  - checks the mode against the transport security of the server URI's scheme;
  - reads the key-material resources into capacity-bounded buffers, each under a REQUIRED or OPTIONAL rule;
  - builds the security descriptor: nothing, a PSK pair, or a certificate with a private key. When server key material is present, the certificate also carries a DANE TLSA record with the "domain-issued certificate" usage of section 2.1.1 of RFC 6698.

Files:

| file | contents |
|---|---|
| `dm.dfy` | Shared vocabulary: 16-bit ids, data-model error codes, results, and the lemmas about strictly ascending id lists. |
| `time_object.dfy` | The Time object. Class `Time` holds the instance list as a `seq` of records. Its methods work step by step, as the handlers do, and are proved against specification functions. |
| `portfolio.dfy` | The Portfolio object. Class `Portfolio` has `instances` and `backup` fields. The rollback law is proved over runs of handler calls. |
| `security_generic.dfy` | The resolver. The field-table loop and the short-circuit chain are methods, proved against pure functions. |
| `scenarios.dfy` | Worked runs through the handlers, with their outcomes checked. |

The two list-based objects share one proof of their ordering argument:
- `FirstGreater` is where the splice happens.
- `IndexOf` is what the early-exit search finds.
- `InsertSortedAscending` says that splicing keeps the list strictly ascending exactly when the id was absent.

The environment is passed in as parameters:
- The clock reading is `Option<int>`. `None` means the clock could not be read.
- Notification delivery is a function from instance id to success.
- A string read from an input context is a `StringInput`: the status and the characters left in the buffer.
- A Security instance's resources are an optional mode code plus a map from resource id to bytes.
- The PSK initialiser's verdict is a function of the keys.
- The buffer capacities are a `KeyCapacities` value.

## Model

| member | source | states |
|---|---|---|
| Dm.FirstGreater | examples/tutorial/BC-Send/src/time_object.c:120-124 | The splice point is the first id strictly greater than the new one: every earlier id is at most the new one. |
| Dm.IndexOf | examples/tutorial/BC-Send/src/time_object.c:66-78 | The position found is the first occurrence of the id, or the end of the list when the id is absent. |
| Dm.InsertSortedAscending | examples/tutorial/BC-Send/src/time_object.c:120-128 | Splicing an id in before the first greater id keeps a strictly ascending list strictly ascending if and only if the id was absent. |
| Dm.InsertSortedMembers | examples/tutorial/BC-Send/src/time_object.c:120-128 | Splicing an id in adds exactly that id to the set of ids. |
| Dm.RemoveMembers | examples/tutorial/BC-Send/src/time_object.c:148-158 | Unlinking one element of a strictly ascending list removes exactly its id from the set of ids. |
| Dm.RemoveAscending | examples/tutorial/BC-Send/src/time_object.c:148-158 | Unlinking one element keeps the list strictly ascending. |
| TimeObject.InsertedValid | examples/tutorial/BC-Send/src/time_object.c:106-129 | Adding an absent, valid id keeps the list valid. Its ids become the old ids with the new one spliced in order, and the id set gains exactly that id. |
| TimeObject.RemovedValid | examples/tutorial/BC-Send/src/time_object.c:141-161 | Removing a present id keeps the list valid. Only that element is cut out, and the id set loses exactly that id. |
| TimeObject.WithApplicationTypeValid | examples/tutorial/BC-Send/src/time_object.c:163-176 | Changing one application type to a string that fits keeps the ids and the validity of the list. |
| TimeObject.WriteThenRead | examples/tutorial/BC-Send/src/time_object.c:218-245 | After writing Application Type, reading it back gives the written string. Every other instance's application type is unchanged. |
| TimeObject.EditsTouchOnlyApplicationTypes | examples/tutorial/BC-Send/src/time_object.c:163-176 | Any run of writes and resets changes only application types. Ids, backups and timestamps stay as they were. |
| TimeObject.RollbackRestores | examples/tutorial/BC-Send/src/time_object.c:252-276 | Begin, then any writes and resets, then rollback, gives back the state begin left. Every id and application type is as it was before begin. |
| TimeObject.BeginKeepsValues | examples/tutorial/BC-Send/src/time_object.c:252-263 | Begin changes only the backup fields. The commit handler is the library's no-op, so begin then commit leaves every value as it was. |
| TimeObject.NotifyTargetsExactly | examples/tutorial/BC-Send/src/time_object.c:337-345 | An instance is notified if and only if its last notification is not from the current second. |
| TimeObject.NotifyRetriesFailures | examples/tutorial/BC-Send/src/time_object.c:339-343 | A second notify in the same second reports exactly the instances whose first notification failed. When every notification was delivered, it reports none. |
| TimeObject.Time.constructor | examples/tutorial/BC-Send/src/time_object.c:297-313 | A new object holds the single instance 0, with application type "Clock 0". |
| TimeObject.Time.FindInstance | examples/tutorial/BC-Send/src/time_object.c:66-78 | On a strictly ascending list, the early-exit search finds an instance if and only if the id is present, and it is the unique instance with that id. |
| TimeObject.Time.ListInstances | examples/tutorial/BC-Send/src/time_object.c:80-91 | Lists every live id in list order, which is strictly ascending. |
| TimeObject.Time.AddInstance | examples/tutorial/BC-Send/src/time_object.c:93-129 | An absent id other than the invalid one is spliced in before the first greater id. The new instance has an empty application type, and the list stays valid. |
| TimeObject.Time.InstanceRemove | examples/tutorial/BC-Send/src/time_object.c:141-161 | A present id's element is unlinked and everything else keeps its order. An absent id is a caller error. |
| TimeObject.Time.InstanceReset | examples/tutorial/BC-Send/src/time_object.c:163-176 | Empties that instance's application type and changes nothing else. |
| TimeObject.Time.ResourceRead | examples/tutorial/BC-Send/src/time_object.c:195-226 | Current Time gives the clock reading, or -1 when the clock fails. Application Type gives the stored string. Any other resource is Method Not Allowed. |
| TimeObject.Time.ResourceWrite | examples/tutorial/BC-Send/src/time_object.c:228-250 | Application Type takes the reader's text and returns its status. Any other resource, Current Time included, is Method Not Allowed and leaves the state unchanged. |
| TimeObject.Time.TransactionBegin | examples/tutorial/BC-Send/src/time_object.c:252-263 | Copies every application type into its backup and keeps the list valid. |
| TimeObject.Time.TransactionCommit | examples/tutorial/BC-Send/src/time_object.c:292 | Changes nothing. |
| TimeObject.Time.TransactionRollback | examples/tutorial/BC-Send/src/time_object.c:265-276 | Copies every backup back over its application type and keeps the list valid. |
| TimeObject.Time.Notify | examples/tutorial/BC-Send/src/time_object.c:326-346 | A failed clock read does nothing. Otherwise the instances not yet notified this second are reported in list order. A timestamp advances only where the notification was delivered. |
| Portfolio.CreatedValid | demo/objects/portfolio.c:138-162 | instance_create has no duplicate check: the new list is strictly ascending if and only if the id was absent. Its ids are the old ids with the new one spliced in order, and the id set gains exactly that id. |
| Portfolio.RemovedValid | demo/objects/portfolio.c:164-183 | Removing a present id keeps the list valid. Only that element is cut out, and the id set loses exactly that id. |
| Portfolio.WithInstanceValid | demo/objects/portfolio.c:185-196 | Replacing one instance by a well-formed one with the same id keeps the ids and the validity of the list. |
| Portfolio.WithInstanceFound | demo/objects/portfolio.c:112-124 | After one instance is replaced, a lookup of its id finds the replacement. A lookup of any other id finds what it found before. |
| Portfolio.WriteThenRead | demo/objects/portfolio.c:224-227 | A successful write of a slot marks it present, and a read of that slot gives the written string. The other slots are untouched. |
| Portfolio.MutateValid | demo/objects/portfolio.c:138-282 | Every handler, called as the data-model layer calls it, keeps the instance list valid. |
| Portfolio.MutateAllValid | demo/objects/portfolio.c:138-282 | Any run of creations, removals, resets and writes keeps the list valid and never touches the backup. |
| Portfolio.MutateAllSameInstances | demo/objects/portfolio.c:138-282 | What a run of handlers does to the live list does not depend on the backup. |
| Portfolio.RollbackLaw | demo/objects/portfolio.c:312-343 | Begin, then any run of handlers, then rollback, gives back the exact state before begin, including which instances exist and every slot flag. Begin, the run, then commit keeps the run's effect and frees the backup. |
| Portfolio.Portfolio.constructor | demo/objects/portfolio.c:366-373 | A new object has no instances and no backup. |
| Portfolio.Portfolio.FindInstance | demo/objects/portfolio.c:112-124 | On a strictly ascending list, the early-exit search finds an instance if and only if the id is present, and it is the unique instance with that id. |
| Portfolio.Portfolio.InstanceCreate | demo/objects/portfolio.c:138-162 | Splices a zeroed instance in before the first greater id. The list stays valid if and only if the id was absent. |
| Portfolio.Portfolio.InstanceRemove | demo/objects/portfolio.c:164-183 | A present id's element is unlinked and everything else keeps its order. An absent id is a caller error. |
| Portfolio.Portfolio.InstanceReset | demo/objects/portfolio.c:185-196 | Clears all four flags and all four values of that instance, and nothing else. |
| Portfolio.Portfolio.ResourceRead | demo/objects/portfolio.c:210-232 | A present Identity slot reads as its stored string. Any other resource is Method Not Allowed. |
| Portfolio.Portfolio.ResourceWrite | demo/objects/portfolio.c:234-265 | A slot outside the four is Not Found with no change. Otherwise the reader's status is returned, and only a successful read stores the text and marks the slot present. Any other resource is Method Not Allowed. |
| Portfolio.Portfolio.ResourceReset | demo/objects/portfolio.c:267-282 | Clears only the Identity flags of that instance. The values stay. |
| Portfolio.Portfolio.ListResourceInstances | demo/objects/portfolio.c:284-310 | Lists exactly the present Identity slots, in strictly ascending order. Any other resource is Internal. |
| Portfolio.Portfolio.TransactionBegin | demo/objects/portfolio.c:312-323 | Needs no outstanding backup, and makes the backup a copy of the live list. |
| Portfolio.Portfolio.TransactionCommit | demo/objects/portfolio.c:325-332 | Frees the backup and leaves the instances unchanged. |
| Portfolio.Portfolio.TransactionRollback | demo/objects/portfolio.c:334-343 | Makes the backup the live list and clears the backup. |
| Portfolio.Portfolio.GetInstances | demo/objects/portfolio.c:383-397 | Outputs every live id in list order, which is strictly ascending. |
| SecurityGeneric.GetSecurityMode | src/core/servers/anjay_security_generic.c:69-100 | Succeeds if and only if the read succeeded with a PSK, Certificate, NoSec or EST code, and then gives that mode. A failed read, RPK and any other value all give the same failure. |
| SecurityGeneric.GetSecurityModeRoundTrip | src/core/servers/anjay_security_generic.c:84-99 | Reading back a stored mode code gives that mode, except RPK, which is refused. |
| SecurityGeneric.SecurityMatchesTransportCases | src/core/servers/anjay_security_generic.c:102-126 | An undefined scheme security accepts every mode. Otherwise NoSec needs an unencrypted scheme and every other mode an encrypted one, in both directions. |
| SecurityGeneric.DtlsKeysExactly | src/core/servers/anjay_security_generic.c:128-190 | The loop over the field table succeeds if and only if every REQUIRED resource is readable: the client key, the secret key, and the server key unless the mode is PSK. It reads nothing for NoSec. It reads in table order up to the first failed REQUIRED read. On success each buffer holds its resource, and an unreadable OPTIONAL one is empty. |
| SecurityGeneric.GetDtlsKeys | src/core/servers/anjay_security_generic.c:128-190 | The loop's result equals the field-by-field account: success condition, resources read, and extracted buffers. |
| SecurityGeneric.InitCertSecurity | src/core/servers/anjay_security_generic.c:192-231 | The client certificate is the client key resource and the private key is the secret key. The system trust store is always ignored. Non-empty server key material turns on validation and DANE and attaches the TLSA record over exactly those bytes. Empty server key material sets none of these. |
| SecurityGeneric.InitSecurity | src/core/servers/anjay_security_generic.c:233-256 | NoSec leaves the config as it is. PSK takes the client identity and secret key when the PSK initialiser accepts them. Certificate and EST go to the certificate builder. RPK fails. |
| SecurityGeneric.ResolveConfigSucceeds | src/core/servers/anjay_security_generic.c:264-301 | The chain succeeds if and only if all of these hold: the mode is supported, it matches the transport when one is known, the required keys are readable, and the descriptor can be built. The result then carries the default ciphersuites. |
| SecurityGeneric.ResolveConfigDescriptor | src/core/servers/anjay_security_generic.c:264-301 | On success, NoSec gives an unset descriptor without a TLSA record, and PSK gives the identity and key pair. Certificate and EST give a certificate descriptor. It carries a domain-issued-certificate TLSA record over the server key if and only if that key is non-empty. |
| SecurityGeneric.GetConfig | src/core/servers/anjay_security_generic.c:264-301 | The chain stops at the first failure with no result. It reads no key resource when the mode fails, is NoSec, or mismatches the transport. On success it marks the connection encrypted if and only if the mode is not NoSec. |
| SecurityGeneric.GetUri | src/core/servers/anjay_security_generic.c:31-67 | The URI is accepted if and only if all of these hold: it was read, it parses, its scheme has a transport, it has no user or password, and its port is not empty. It is then returned with its transport. |

## Left out

- Allocation failures are not modelled: every `AVS_LIST_NEW_ELEMENT`, list clone and `avs_calloc` is taken to succeed. So the Time object's `instance_create` (examples/tutorial/BC-Send/src/time_object.c:131-139) is `AddInstance`, without its Internal-error path. The Portfolio `transaction_begin` clone failure and the `portfolio_get_instances` out-of-memory return are left out too.
- Object release and freeing, `AVS_CONTAINER_OF` pointer arithmetic, and logging are not modelled.
- Lists and buffers are values. The model does not capture pointer aliasing, such as the TLSA record pointing into the key buffer rather than holding a copy.
- The output, input and list contexts (`anjay_ret_*`, `anjay_get_string`, `anjay_dm_emit`) are modelled as values: returned results, a `StringInput` taken as a parameter, and returned id lists. Their own failure codes are not modelled, and `list_resources` of both objects only emits constants, so it is left out.
- Portfolio.Portfolio.ResourceWrite: requires the reader's text to fit the 256-byte buffer. That is the reader's guarantee, and the way it truncates or reports longer input is not modelled.
- The Fractional Time resource is not modelled, because no handler reads or writes it. `time_object_send` and its completion handler are not modelled either, because they only drive the external batch builder and scheduler.
- The clock is a parameter. The dedup compares whole seconds, as the handler does.
- Strings are modelled as sequences of characters. The 64- and 256-byte buffer bounds (`Fits`, `WellFormed`) are counted in characters, not in encoded bytes. Written texts are taken to contain no NUL character: C's `strcpy` and `anjay_ret_string` stop at the first NUL, and the model keeps the whole text.
- TimeObject.WriteThenRead: the read-back of the written text matches the C handlers only for NUL-free text; the C read stops at the first NUL.
- Portfolio.WriteThenRead: the stored and read-back text matches the C handlers only for NUL-free text; `strcpy` and the C read stop at the first NUL.
- `_anjay_dm_read_resource` and its i64 and string variants are modelled as "present and fits the buffer, else failure". After a failed OPTIONAL read the buffer is taken to have size 0, as in the zeroed allocation. The real helper may leave other contents behind.
- The key buffer capacities come from a header that is not part of this model, so they are a parameter.
- `_anjay_connection_init_psk_security` is not part of this model. Its success is a parameter, and the descriptor it builds is taken to be the (client identity, secret key) pair.
- The URI parser and the scheme table are parameters of `GetUri`. Only its rejection rule is modelled.
- AVS_UNREACHABLE branches of the Portfolio handlers are modelled by the code they return in a release build. Assertions in the handlers become preconditions.

## Behaviour of the code worth noting

- RPK (code 1) and every out-of-range code both make the mode classifier return -1 (src/core/servers/anjay_security_generic.c:85-98). `GetSecurityMode` returns `None` for both.
- With Certificate or EST and an empty server key, `server_cert_validation` and `dane` stay false and no TLSA record is attached (src/core/servers/anjay_security_generic.c:214-222). The certificate descriptor then has validation off (`InitCertSecurity`).
- The Portfolio `instance_create` does not check for a duplicate id. Validity after creation holds only when the id was absent (`Portfolio.CreatedValid`).
- The Time object's `resource_write` lets the string reader write straight into the live Application Type buffer. So whatever the reader left there is kept even when it reports a failure (`TimeObject.Time.ResourceWrite`). The Portfolio instead reads into a local buffer and copies only on success.
