# A verified model of the ONTAP COSI driver's reconciliation protocol

The driver answers four RPCs (create and delete a bucket, grant and revoke bucket access). Each RPC is a chain of REST
calls to an ONTAP S3 service; any call can fail before or after it took effect, and the sidecar then retries the whole
RPC. This project models the driver, its S3 client and the service, and proves what holds over whole runs: of any number
of RPCs, interleaved call by call, cut short anywhere, with jobs that finish whenever they like.

## How the model is built

- `Ontap` is the service as a value: buckets, jobs, policies, users and groups, the thirteen REST requests the client
  makes, and the fate of a call: carried out and answered, carried out with the answer lost, or not carried out.
- `Rpc` is the driver as a state machine: an RPC is a process that waits for one REST call at a time. `Run` takes a
  system (one service, any number of RPCs) through a sequence of events: an RPC begins, a call is made and meets its
  fate, a job ends, an RPC is abandoned (crash, cancellation). The caller is arbitrary: it may retry, or not, in any
  order. The run theorems are about this machine.
- `Service`, `Client`, `BucketClient`, `Tenant`, `Tenancy` and `Driver` are the code itself, method by method, over
  mutable `Backend` objects whose fields other RPCs, other clients and finishing jobs change between any two calls.
  `Backend.Do` accepts a request only if it is the one the machine waits for, and every method's contract says from which
  stage to which it takes its RPC, with which result. A handler first resolves its client, then works on the one object
  that client stands for. So the imperative code refines the machine, and the lemmas `Driver.Returned...Stands` show how
  theorems about runs become theorems about the object a handler has returned from.
- `Slices`, `Interleaving`, `Projection`, `Convergence`, `Credentials`, `Access`, `Progress`, `Collisions`, `Integrity`
  and `Linkage` hold the theorems about access; `Buckets`, `Deletions` and `Verdicts` those about buckets and jobs;
  `Quota`, `Codes`, `Overrides`, `BucketScope` and `RoundTrips` those about error codes and the bucket override;
  `Serving` and `Clusters` those about tenants. `Walks` builds the runs that show what goes wrong. `Text`, `Names`,
  `Size`, `Errors` and `PollTimer` are the pure cores they rest on.

## What is assumed of the service

- Every event has a later tick than the one before it, and keys, group ids, job ids and bucket UUIDs are those of the
  tick they are minted at: none is ever minted twice.
- A call that is carried out and answered gets 409 exactly for a name that is taken and 404 exactly for an object that is
  missing; failed calls carry any other error. An error with an effect also stands for the answers the client rejects
  after the fact: an undecodable body, user records without keys, a job reference without an id.
- A listing holds every stored object of the name it was asked for, and of that name no others; it may hold records of
  other names. A listing that does not is treated as a failed call.
- An account may do what the stored policies of the groups it is in allow; a resource in a policy that ends in '*' stands
  for all that begin with what is before it, any other for itself.
- A user may be deleted while another group still names it (pkg/driver/provisioner.go:269-271 relies on it).
- A create job installs its bucket only if the name is free when it ends; a delete job removes the UUID it was given.
- A call takes effect before the RPC goes on or is abandoned, if it takes effect at all. Only jobs act later.

## Where the code is not what its documentation says

- `getName` returns `(id, false)` with an override and `(name, true)` without, and `DriverCreateBucket` skips the
  comparison when that flag is true (pkg/driver/provisioner.go:81, 98-104, 334-340). Its comment and the README promise
  the opposite: an existing bucket of another size is refused with AlreadyExists (pkg/driver/provisioner.go:65-71,
  README.md:238-241). The handlers are modelled as written. With the flag as meant, `Overrides.MeantReplyExactly` gives
  the documented reply and `Buckets.CreatedMeansStored` and `Overrides.MeantContract` the promise over runs. As written,
  a success is still true unless the RPC's own lookup misled it (`Buckets.CreatedUnlessShown`), and over whole runs every
  success is true exactly when an override is configured or all sizes asked for are that of any bucket the requests can
  create (`Overrides.WrittenContractExactly`, with the lying run `Overrides.FalseRunLies`). True means that a bucket of
  the name is stored, and that it has the size asked for if one was asked for.
- The existence check counts records of any name (pkg/clients/s3/s3.go:246-253), and without a size, or with a skipped
  comparison, nothing else is looked at. The client's query asks the service to filter by name
  (pkg/clients/s3/s3.go:710-721), and the conditions above are for services that do. On one that does not, a request
  without a size is told that its bucket exists when only another one does: under the override "o", a request without
  parameters that is shown a record of a bucket "ob" succeeds with nothing stored at all
  (`Overrides.ForeignRecordLies`). There every success is true exactly when there are no requests, or an override is
  configured and every request gives a size (`Overrides.UnfilteredContractExactly`).
- Revoke applies the bucket override and Grant does not (pkg/driver/provisioner.go:203, 297-299).
  `RoundTrips.RoundTripExactly` shows that Grant and Revoke of one request undo each other exactly when no override is
  configured or all granted buckets are the override; `RoundTrips.RoundTripFails` is a run for every other case of one
  bucket.
- Group names are cut at 64 characters and policy names at 128. For bucket names and account names that are a prefix and
  a UUID (39 characters each) a group name keeps the bucket and the first 19 characters of the account: two accounts of
  one bucket that agree on those share a group name (`Names.UuidGroupNamesCollideExactly`), and the second Grant meets a
  conflict, ignores it, succeeds, and leaves its account in no group (`Collisions.UuidGrantUnbound`). Every finished
  Grant stands in every run exactly when no two (account, bucket) pairs share a group name (`Collisions.StandsExactly`);
  every finished Revoke leaves nothing exactly when no two accounts share a group name (`Collisions.ClearedExactly`);
  interleaved RPCs never leave a COSI group without its policy, and a Grant whose calls are all answered always succeeds,
  exactly when no two accounts share a policy name (`Linkage.LinkedExactly`, `Progress.SucceedsExactly`).
  `Credentials.FinishedKeysAreLive`, `Progress.AnsweredRevokeSucceeds`, `Integrity.GroupsAlwaysHaveTheirPolicy`,
  `Convergence.NoLeakAfterCrash` and `Convergence.RevokesConverge` hold whatever the names.

## Model

| member | source | states |
|---|---|---|
| `Interleaving.InterleavingSafety` | pkg/driver/provisioner.go:202-263 | over every run of any number of interleaved, failing, abandoned RPCs: a finished Grant stands with exactly its policy and group for every requested bucket, lists those buckets in order and returns the keys now stored; after a finished Revoke none of them is left |
| `Collisions.StandsExactly` | pkg/clients/s3/s3.go:796-813 | every finished Grant stands in every run that starts fresh exactly when no two (account, bucket) pairs share a group name |
| `Collisions.SecondGrantUnbound` | pkg/clients/s3/s3.go:807-812 | for any two accounts whose group names collide, a run in which the second Grant succeeds and returns the stored keys, its bucket is unbound and its account is in no group |
| `Collisions.UuidGrantUnbound` | pkg/clients/s3/s3.go:428-429 | such a run for any two accounts of one bucket with 39-character names that agree in their first 19 |
| `Collisions.TwoBucketsUnbound` | pkg/driver/provisioner.go:202-227 | for any two buckets whose group names collide for an account, a run in which its Grant succeeds and one of them is unbound |
| `Collisions.ClearedExactly` | pkg/clients/s3/s3.go:451-466 | every finished Revoke leaves nothing of its buckets to its account, in every run that starts fresh, exactly when no two accounts share a group name |
| `Collisions.RevokeUndone` | pkg/clients/s3/s3.go:828-844 | for any two accounts whose group names collide, a run in which the Revoke of the one has finished and its group is there again |
| `Collisions.FailedButBound` | pkg/clients/s3/s3.go:807-812 | for any account and bucket, a run in which the Grant fails because its last answer is lost, and the bucket is bound all the same |
| `Credentials.FinishedKeysAreLive` | pkg/driver/provisioner.go:202-263 | in every run, whatever names collide and whatever the service holds: the keys a finished Grant returns are the stored ones, its list is the requested one, and after a finished Revoke the account has no keys |
| `Credentials.RunKeepsKeyed` | pkg/clients/s3/s3.go:768-794 | the invariant behind it, of every run: only an account's own RPC writes its user, and from the rotation on its RPC holds the stored keys |
| `Credentials.IdleIsKeyed` | pkg/driver/provisioner.go:202-263 | such runs may start with an idle driver and any service |
| `Interleaving.FreshIsSafe` | pkg/clients/s3/s3.go:427-466 | where those runs may start: an idle driver, a service without COSI groups, and accounts and buckets whose derived names are apart |
| `Interleaving.RunKeepsSafe` | pkg/clients/s3/s3.go:427-466 | the invariant behind it: what each stage of each Grant and Revoke has achieved, and that a group's content is determined by its name, survive every event |
| `Interleaving.RunKeepsTidy` | pkg/clients/s3/s3.go:451-466 | the part of the invariant that needs no assumption on an account's own names |
| `Interleaving.RevokeStepHolds` | pkg/clients/s3/s3.go:828-862 | whatever becomes of a Revoke's call, its next stage has achieved what it claims |
| `Interleaving.GrantStepHolds` | pkg/clients/s3/s3.go:737-813 | the same for every call of a Grant, conflicts included |
| `Interleaving.GroupBinds` | pkg/clients/s3/s3.go:796-813 | asking for the group binds the bucket even on a conflict that is ignored, because the group in conflict already has this content |
| `Interleaving.HonestListing` | pkg/clients/s3/s3.go:828-841 | the ids picked from a listing are exactly the stored groups of that name |
| `Interleaving.CallKeepsOthers` | pkg/clients/s3/s3.go:427-466 | a call of one account's RPC, or of a bucket RPC, changes no other account's policies, groups or user |
| `Slices.OthersSliceKept` | pkg/clients/s3/s3.go:427-466 | the same for a single request, carried out or not, answered or not |
| `Slices.TwinsServeAlike` | pkg/clients/s3/s3.go:427-466 | services that agree on an account's slice give its requests the same answers and still agree afterwards |
| `Projection.AccountsAreIndependent` | pkg/driver/provisioner.go:181-310 | an account's objects and its RPC in flight end up as if no other account had ever issued an RPC, in every run |
| `Convergence.NoLeakAfterCrash` | pkg/driver/provisioner.go:276-310 | however attempts were cut short or lost answers, after one successful Revoke the policies, groups and users are the starting ones without the account's slice; nothing is assumed of the names |
| `Convergence.NoLeakFromIdle` | pkg/driver/provisioner.go:276-310 | the same from any service and an idle driver |
| `Convergence.NoLeakAmongOthers` | pkg/driver/provisioner.go:276-310 | the same among other accounts' RPCs, whose strangers stay untouched |
| `Convergence.RunKeepsStrangers` | pkg/clients/s3/s3.go:427-466 | no run touches a policy, group or user that is not one of its accounts' own |
| `Convergence.RevokesConverge` | pkg/driver/provisioner.go:266-275 | successful Revokes of one set of buckets, in any order and multiplicity and after any attempts, reach the same state |
| `Convergence.GrantReaches` | pkg/driver/provisioner.go:181-264 | any attempts that end in a successful Grant bind every bucket, leave every other object alone, and leave the returned keys stored |
| `Convergence.GrantsConverge` | pkg/driver/provisioner.go:181-264 | a retried Grant and an uninterrupted one, in any bucket order, differ in key values and group ids only; as many groups carry each name, unless the service started with two groups of one derived name |
| `Convergence.BindingsDetermineGroups` | pkg/clients/s3/s3.go:796-813 | the bindings and the strangers determine the contents of all groups, and how many carry each name where no derived name had two |
| `Progress.AnsweredGrantSucceeds` | pkg/driver/provisioner.go:202-263 | from any state failed attempts leave behind, whatever other RPCs and jobs do in between and whatever groups there are: a Grant whose own calls are answered and which finds its buckets stored succeeds within six calls a bucket, as long as no two accounts share a policy name |
| `Progress.SucceedsExactly` | pkg/clients/s3/s3.go:737-766 | such Grants always succeed exactly when no two accounts share a policy name |
| `Progress.RevokeBeforePatch` | pkg/clients/s3/s3.go:737-766 | for any two accounts that share a policy name, a run in which all of a Grant's calls are answered and it fails, because the other's Revoke deletes the policy it is about to patch |
| `Progress.AnsweredReply` | pkg/clients/s3/s3.go:737-794 | an answered call of a Grant meets no refusal but the conflicts it handles, where what it is about to patch is there |
| `Progress.AnsweredRevokeSucceeds` | pkg/driver/provisioner.go:276-310 | from any state, whatever the names and whatever runs beside it: a Revoke whose own calls are answered succeeds within three calls a bucket and one for each group its listings give it |
| `Credentials.ReplacedKeysStayDead` | pkg/clients/s3/s3.go:768-794 | keys an account no longer has never come back to it, in any run |
| `Credentials.ReturnedKeysRetire` | pkg/driver/provisioner.go:228-241 | of all key pairs returned for an account at most the latest works, in every run, whatever the names and the service |
| `Access.PolicyAllowsExactly` | pkg/clients/s3/s3.go:737-751 | the policy of a bucket allows a resource exactly if it is the bucket or an object in it, for bucket names that are not patterns themselves |
| `Access.OtherBucketsStayShut` | pkg/clients/s3/s3.go:745-749 | it allows no other bucket and none of their objects |
| `Access.StarOpensMore` | pkg/clients/s3/s3.go:745-749 | a bucket name that ends in '*' would be read as a pattern: its policy allows more than the bucket |
| `Access.AccessIsGrantedExactly` | pkg/driver/provisioner.go:167-310 | in every run with names apart: what an account may do through its groups and their policies is confined to the buckets of the run; after a finished Grant it may do what its buckets hold, and exactly that if the run is about no other buckets; after a finished Revoke nothing |
| `Access.RunConfined` | pkg/clients/s3/s3.go:427-466 | the invariant behind it: the account is in no group but its own, and they name no policy but their bucket's |
| `Access.FreshIsConfined` | pkg/clients/s3/s3.go:427-466 | where such runs may start: a service without COSI groups and without groups the account is in |
| `Integrity.GroupsAlwaysHaveTheirPolicy` | pkg/clients/s3/s3.go:451-466 | with one access RPC at a time and arbitrary name collisions and failures, the policy of every COSI group exists in every reachable state |
| `Integrity.RevokeCallKeepsLinked` | pkg/clients/s3/s3.go:455-460 | deleting the group before the policy keeps every remaining COSI group's policy, since equal policy names mean equal group names |
| `Integrity.RunKeepsSound` | pkg/clients/s3/s3.go:427-466 | the invariant behind it, over whole runs |
| `Linkage.LinkedExactly` | pkg/clients/s3/s3.go:451-466 | interleaved RPCs, one in flight per account, never leave a COSI group without its policy exactly when no two accounts share a policy name |
| `Linkage.RunInterlocks` | pkg/clients/s3/s3.go:427-466 | the invariant behind it: a Grant past its policy finds it stored, and a Revoke deletes a policy only when no group names it |
| `Linkage.RevokeBetween` | pkg/clients/s3/s3.go:455-460 | for any two accounts that share a policy name, a run that leaves a COSI group without its policy |
| `Names.EqualPoliciesEqualGroups` | pkg/clients/s3/s3.go:428-429 | over all strings: pairs with equal policy names have equal group names |
| `Names.EqualGroupsUnequalPolicies` | pkg/clients/s3/s3.go:428-429 | the converse fails for every bucket name of 59 characters |
| `Names.NamesInjective` | pkg/clients/s3/s3.go:873-886 | for normal-form inputs with buckets of one length, names that fit coincide exactly when the pairs do |
| `Slices.FittingNamesAreApart` | pkg/clients/s3/s3.go:873-886 | over whole sets of normal-form accounts and buckets of one length whose names fit, no two pairs share a group name |
| `Slices.UuidNamesAreApart` | pkg/clients/s3/s3.go:428-429 | nor do those of 39-character names whose accounts differ in their first 19 characters, though their group names are cut |
| `Slices.PairsApartNames` | pkg/clients/s3/s3.go:428-429 | pairs that share no group name share no policy name |
| `Names.NamesCollide` | pkg/clients/s3/s3.go:873-886 | without those conditions they do collide |
| `Names.CutGroupNamesCollideExactly` | pkg/clients/s3/s3.go:873-886 | cut group names of buckets of one length coincide exactly when the buckets and what is left of the accounts do |
| `Names.UuidGroupNamesCollideExactly` | pkg/clients/s3/s3.go:428-429 | with bucket and account names of 39 characters, two accounts of a bucket share a group name exactly when their first 19 characters agree, and a policy name only when they agree in full, normalization aside |
| `Names.NamesArePrefixed` | pkg/clients/s3/s3.go:428-429 | every derived name starts with "cosi-", so the COSI groups include all the driver makes |
| `Names.NormalizedAlikeExactly` | pkg/clients/s3/s3.go:873-880 | normalization forgets the case of letters and which separator was used, and nothing else |
| `Names.NamesSpelledOut` | pkg/clients/s3/s3.go:428-429 | the names as documented, of normal-form inputs that leave them room |
| `Size.ParserAcceptsExactly` | pkg/clients/s3/s3.go:289-304 | the parser accepts exactly the spellings (padding, plus sign, digits, unit in any case) of 1 to floor((2^63-1)/2^30), as that many GiB, within an int64 |
| `Size.SpellingAccepted` | pkg/clients/s3/s3.go:289-304 | what every spelling is read as, including which error zero and oversized numbers give |
| `Size.AcceptedIsSpelled` | pkg/clients/s3/s3.go:289-304 | whatever is accepted is put together that way |
| `Size.ParseUndoesPrint` | pkg/clients/s3/s3.go:289-304 | parsing undoes decimal printing through padding, sign, leading zeros and either form of the unit |
| `Size.TrimmedParsesTheSame` | pkg/clients/s3/s3.go:316-320 | trimming first, as only one caller does, does not change the result |
| `Text.TrimStripsPadding` | pkg/clients/s3/s3.go:290 | trimming removes exactly the padding around a text with none of its own |
| `Text.TrimSplits` | pkg/clients/s3/s3.go:290-295 | what trimming removes is padding, and nothing is left to trim |
| `Text.SpacesExactly` | pkg/clients/s3/s3.go:290 | what counts as white space |
| `Text.LowerExactly` | pkg/clients/s3/s3.go:623 | lower case: the letters, and which are which |
| `Text.TrueSpellings` | pkg/driver/multitenant.go:121-125 | a value is read as true exactly if it is "1", "t" or "true" in lower case, upper case or capitalized |
| `Text.FalseSpellings` | pkg/driver/multitenant.go:121-125 | and as false exactly for "0", "f" or "false" |
| `Buckets.PlannedExactly` | pkg/clients/s3/s3.go:312-346 | exactly which parameter maps a bucket is created from, what it then looks like, and that InvalidArgument means a size that is missing or not accepted |
| `Buckets.WantedExactly` | pkg/clients/s3/s3.go:260-269 | no size is compared exactly if the parameter is missing or blank; any other is the one the parser reads |
| `Buckets.CreateAndCompareAgree` | pkg/clients/s3/s3.go:260-328 | the size CreateBucket asks for is the one IsBucketEqual compares with, on every parameter map it accepts |
| `Buckets.CreatedComparesEqual` | pkg/clients/s3/s3.go:260-280 | a bucket compares equal under the map it was created from, and under another exactly when the sizes agree |
| `Buckets.FoundIsStored` | pkg/clients/s3/s3.go:723-735 | the lookup finds a stored bucket of exactly the name if there is one |
| `Buckets.CreatedMeansStored` | pkg/driver/provisioner.go:73-138 | over every run of overlapping Creates, timeouts, lost answers, late jobs and differing sizes: a validated Create that reported success for a size finds the one stored bucket of its name with exactly that size; without a size it finds the one stored bucket of its name, where listings hold only records of the name asked for |
| `Buckets.CreatedMeansStoredFromIdle` | pkg/driver/provisioner.go:73-138 | the same from an idle driver and a service without jobs |
| `Buckets.RunKeepsNamed` | pkg/clients/s3/s3.go:246-253 | where listings hold only records of the name asked for, a Create of the name, validated or not, has reported success only if a bucket of the name is stored, in every run without a Delete of it |
| `Buckets.CreatedUnlessShown` | pkg/driver/provisioner.go:92-138 | as written, through lookup, POST and job: a reported success means a stored bucket of the name with the size asked for, if one was, unless the Create's own answered lookup showed records: any to one that skipped validation, only foreign ones to one that asked for no size |
| `Buckets.ComparedExactly` | pkg/clients/s3/s3.go:260-280 | on an answered comparison a Create succeeds exactly if a bucket of its name and size is stored, and reports AlreadyExists exactly if not |
| `Buckets.RunKeepsCreating` | pkg/driver/provisioner.go:73-138 | the invariant behind it: what jobs, stored buckets and Creates in flight say of each other |
| `Buckets.SameSizeCreatesAreFaithful` | pkg/driver/provisioner.go:97-121 | with or without validation: when all requests a bucket of the name can be created from denote one size, every reported success means a bucket of that size is stored |
| `Deletions.OnlyALookedUpBucketIsRemoved` | pkg/clients/s3/s3.go:386-424 | a stored bucket outlives every run in which no Delete's answered lookup finds it, Creates and Deletes of its own name included |
| `Deletions.RunKeepsSane` | pkg/clients/s3/s3.go:923-934 | in every run whatsoever, what a successful removal job removed stays removed |
| `Deletions.DeletedMeansGone` | pkg/clients/s3/s3.go:386-424 | whatever Creates and Deletes run beside it: after a reported deletion every bucket of the name that was stored before the Delete looked is gone, and no bucket of the name is left if nothing makes one meanwhile |
| `Deletions.DeletesConverge` | pkg/driver/provisioner.go:140-165 | failing attempts that end in a reported deletion, beside any Creates, leave of the buckets there were exactly those of other names, unchanged |
| `Deletions.OldBucketsUnchanged` | pkg/clients/s3/s3.go:923-934 | a stored bucket's record never changes, and a removed one never comes back under its UUID |
| `Deletions.DeleteOfMissingIsNoOp` | pkg/clients/s3/s3.go:387-393 | deleting a missing bucket makes one call, changes nothing and reports success |
| `Verdicts.AnsweredDeleteExactly` | pkg/clients/s3/s3.go:386-424 | over runs, whatever else happens: a Delete whose own calls are answered reports success exactly if its lookup listed no bucket of the name or the removal job it started ended well, and an internal error exactly if that job failed or the bucket was gone when it asked for the removal |
| `Verdicts.AnsweredCreateExactly` | pkg/driver/provisioner.go:73-138 | over runs, whatever else happens: a Create whose own calls are answered ends with what it validates if it was shown a record; shown none, it reports success exactly if the job it started, which installs the bucket its parameters describe, ended well, and otherwise the code of its parameters or of that job |
| `Verdicts.AnsweredRpcEnds` | pkg/clients/s3/s3.go:946-959 | a Create or Delete that has started its job is done with the first answered poll after the job has ended |
| `Verdicts.GrantNeedsItsBuckets` | pkg/driver/provisioner.go:202-213 | in no run whose listings hold only records of the name asked for does a Grant succeed that names a bucket which is never there |
| `Errors.QuotaMessageExactly` | pkg/clients/s3/s3.go:622-625 | a message is a quota message exactly when a marker phrase stands somewhere in it, in any case and among any text |
| `Errors.WrappingKeepsClassification` | pkg/clients/s3/s3.go:565-569 | no number of wrappers, whatever they say, changes whether an error is a quota error, its HTTP status or its code |
| `Quota.ExhaustedExactly` | pkg/driver/provisioner.go:123-132 | a failing Create or Grant, at whatever call, reports ResourceExhausted exactly when a mutation failed and its message, or its job's error with the job's message as fallback, holds a marker |
| `Quota.FaultCode` | pkg/driver/provisioner.go:215-226 | the same for a call that is rejected outright |
| `Quota.JobCode` | pkg/clients/s3/s3.go:361-374 | the same for a job that ends in failure |
| `Codes.FaultCodesExactly` | pkg/driver/provisioner.go:85-132 | which failed calls are passed over (409 on what is there, 404 on what is gone), and the code every other one ends its RPC with |
| `Codes.RepliesAreCoded` | pkg/driver/provisioner.go:73-310 | over every run: the codes each RPC can fail with; a Grant or Revoke is an invalid argument exactly if it names no buckets, a Create only if its size is not accepted |
| `Overrides.FlagIsInverted` | pkg/driver/provisioner.go:334-340 | getName gives the override's name, or else the one asked for, and a flag that is the opposite of the one its caller means, under every configuration |
| `BucketScope.OnlyEffectiveBuckets` | pkg/driver/provisioner.go:334-348 | over every run of the driver's RPCs: a Create that succeeds reports the override's bucket, or without an override the one asked for, and a bucket of any other name neither appears nor goes nor changes |
| `Overrides.MeantContract` | pkg/driver/provisioner.go:65-71 | with the flag as meant and no override: over every run, a Create that reported success for a size finds the one stored bucket of its name with that size, and one without a size the one stored bucket, where listings hold only records of the name asked for |
| `Overrides.MeantReplyExactly` | README.md:238-241 | with the flag as meant and no override, a bucket that exists leads to success exactly if no size or its own is asked for, and to AlreadyExists exactly if another one is |
| `Overrides.WrittenReusesAnyBucket` | README.md:238-241 | a bucket of 1 GiB is reused for a request of 2 GiB as written, and refused with the flag as meant |
| `Overrides.WrittenContractExactly` | pkg/driver/provisioner.go:73-138 | as written, over all runs of a set of requests from an unused service whose listings hold only records of the name asked for: every reported success means a stored bucket, of the size asked for if one was, exactly when an override is configured or whatever size is asked for is that of any bucket the requests can create |
| `Overrides.FalseRunLies` | pkg/driver/provisioner.go:97-110 | for any two requests of which one can create the bucket and the other asks for another size, a run in which the second is told a success that is not true |
| `Overrides.ForeignRecordLies` | pkg/clients/s3/s3.go:246-253 | a request that is not validated, or gives no size, and is shown only a record of another bucket succeeds with nothing stored |
| `Overrides.UnfilteredContractExactly` | pkg/clients/s3/s3.go:246-280 | on a service whose listings may hold records of other names, every success means a stored bucket, of the size asked for if one was, exactly when there are no requests, or an override is configured and every request gives a size |
| `RoundTrips.TargetsAreGrantedExactly` | pkg/driver/provisioner.go:295-299 | a Revoke works on the granted buckets exactly when the override makes no difference |
| `RoundTrips.RoundTripExactly` | pkg/driver/provisioner.go:203-299 | Grant then Revoke of one request restores policies, groups and users exactly when no override is configured or all granted buckets are the override |
| `RoundTrips.RoundTripFails` | pkg/driver/provisioner.go:203-299 | for every override and every other bucket with names apart, a Grant and a Revoke that both succeed, every call answered, and leave the policy behind |
| `RoundTrips.RoundTripFailsForOne` | pkg/driver/provisioner.go:203-299 | such a run under the override "o" for the account "a" and the bucket "b" |
| `Tenant.TenantConfig` | pkg/driver/multitenant.go:107-181 | the result is the overlay of the Secret over the defaults, the first bad boolean in reading order, or exactly the missing identity keys |
| `Tenant.OverlaidFieldByField` | pkg/driver/multitenant.go:107-181 | field by field: identity is the Secret's, every other field is the Secret's where it gives a value that is not empty, and the driver's where not |
| `Tenant.RefusedExactly` | pkg/driver/multitenant.go:109-145 | a Secret is refused exactly for the identity keys it gives no value for, or else for the first of three keys whose value is no boolean |
| `Tenant.EmptyIsAbsent` | pkg/driver/multitenant.go:108-114 | a key with an empty value counts as one the Secret does not have |
| `Tenant.ReadIdentity` | pkg/driver/multitenant.go:129-145 | in whatever order the map is walked: the identity fields hold the Secret's values, all others the defaults, and the missing keys are listed once each |
| `Tenant.ReadTls` | pkg/driver/multitenant.go:147-161 | the TLS settings are the Secret's or else the defaults, or the first bad boolean |
| `Tenant.ReadOptions` | pkg/driver/multitenant.go:162-180 | so are the remaining optional settings |
| `Tenant.OrderOnlyListsMissing` | pkg/driver/multitenant.go:129-145 | the map's iteration order shows only in the order of the missing keys |
| `Tenant.IdentityNeverFallsBack` | pkg/driver/multitenant.go:100-106 | defaults that differ in the four identity fields give identical successful results, whose identity is the Secret's |
| `Tenancy.Load` | pkg/driver/multitenant.go:81-98 | loading succeeds exactly for a present Secret that is complete, well-formed and builds a client, and gives that client's service |
| `Tenancy.ResolveClient` | pkg/driver/provisioner.go:47-63 | the service an RPC acts on, or Unavailable when its tenant's cannot be told |
| `Tenancy.TenantDecidesItsTarget` | pkg/driver/multitenant.go:100-106 | where a tenant's RPC goes depends on its own Secret alone, not on the driver's identity or other namespaces |
| `Tenancy.TenantReachesItsEndpoint` | pkg/driver/multitenant.go:81-98 | all calls of a tenant's RPC go to the management endpoint of its own Secret, as it stands if it has a scheme and else over the one its SSL setting says, and to the storage virtual machine its own Secret names |
| `Tenancy.UsableExactly` | pkg/clients/s3/s3.go:156-232 | all that has to be right about a Secret for a client to be built from it |
| `Tenancy.S3KeysDoNotSteer` | pkg/clients/s3/s3.go:164-187 | Secrets that differ in the three S3 settings, and hold no bad boolean among them, send RPCs to one service |
| `Tenancy.OwnServiceOtherwise` | pkg/driver/provisioner.go:47-54 | outside multi-tenant mode, and without a namespace, RPCs run on the driver's own service |
| `Serving.ServeAll` | pkg/driver/provisioner.go:47-63 | RPCs for any tenants, with Secrets that change: at each service the driver has begun exactly the RPCs that resolve to it, in order, and the service is where a run with these has got to; a service no RPC was run at is as it was; and an RPC is answered Unavailable exactly if its tenant could not be loaded |
| `Serving.ServeOne` | pkg/driver/provisioner.go:47-63 | the same for one RPC |
| `Clusters.OneClientPerRpc` | pkg/driver/provisioner.go:77-80 | an RPC keeps the client it was given when it came in, however the Secrets change: all its calls go to one service |
| `Clusters.RunKeepsExclusive` | pkg/driver/provisioner.go:77-80 | no two RPCs in hand ever hold the same slot of the same service |
| `Clusters.TenantProjection` | pkg/driver/provisioner.go:47-63 | for every run of RPCs of all tenants at once: each service ends up where its own sub-run takes it, which is what carries theorems about one service over to each tenant |
| `Clusters.DriverActsRightfully` | pkg/driver/provisioner.go:47-63 | what the driver does to a service, in every run from idle, it does for an RPC whose tenant's Secret led to that very service when it came in: begins it, or makes or ends the calls of its own process in its own slot |
| `Clusters.RunIsRightful` | pkg/driver/provisioner.go:47-63 | the invariant behind it: every RPC in hand came in for the service it holds, stands there as its own process, and shares its slot with no other |
| `Clusters.TenantsAreIndependent` | pkg/driver/multitenant.go:81-98 | a service and the RPCs in hand at it end up, in every run, as if the RPCs that lead to other services, and those of tenants that cannot be loaded, had never come in |
| `Clusters.TurnedAwayExactly` | pkg/driver/provisioner.go:55-61 | in every run exactly the RPCs whose tenant cannot be loaded when they come in are answered Unavailable on arrival |
| `Clusters.TurnedAwayTouchNothing` | pkg/driver/provisioner.go:55-61 | and without them every service and every RPC in hand ends up the same |
| `Clusters.TenantAccessHolds` | pkg/driver/provisioner.go:181-310 | interleaving safety holds of each tenant's service in every run, whatever all the others do |
| `PollTimer.AwaitTick` | pkg/clients/s3/s3.go:960-968 | when the loop goes on and when it gives up: at the first tick it has not received, unless the context is done by then; it gives up only when the context is done and, if the poll ended before that, every tick before has been received; whichever of ticker and deadline select prefers |
| `PollTimer.SelectsTheFirst` | pkg/clients/s3/s3.go:960-968 | select comes back the first moment there is a tick or the end of the context to receive, with one that is there |
| `PollTimer.TicksAreQuotient` | pkg/clients/s3/s3.go:943 | the ticks by a time are its quotient by the interval |
| `BucketClient.PollUntil` | pkg/clients/s3/s3.go:942-970 | for every clock, timeout and interval: it ends, polls at most floor(timeout/interval)+1 times, times out only when its context is done and, with polls quicker than the interval, not before it has polled floor(timeout/interval) times; otherwise it tells what its last poll, begun in time, has come to: the job's own terminal state, or no answer |
| `BucketClient.WaitForJob` | pkg/clients/s3/s3.go:939-970 | so for a poll every two seconds and a timeout of five minutes: at most 151 polls, and with quick polls and no earlier deadline a timeout only after 300 seconds and 150 polls |
| `BucketClient.PollThenWait` | pkg/clients/s3/s3.go:946-968 | one turn of that loop; every other state is pending |
| `BucketClient.BuildBucket` | pkg/clients/s3/s3.go:316-346 | the bucket CreateBucket asks for, or the first reason why it does not ask |
| `BucketClient.BucketExists` | pkg/clients/s3/s3.go:246-253 | takes the RPC to the stage after the lookup, on any record |
| `BucketClient.IsBucketEqual` | pkg/clients/s3/s3.go:260-280 | takes a found bucket to success or AlreadyExists, without a call when no size is wanted |
| `BucketClient.CreateBucket` | pkg/clients/s3/s3.go:312-377 | takes a missing bucket through submission and job to success, or to the failure it reports |
| `BucketClient.AwaitCreation` | pkg/clients/s3/s3.go:354-377 | from an accepted job to success if the job ended well, to its failure if it did not, or to the wait's own failure, which is never Unavailable |
| `BucketClient.DeleteBucket` | pkg/clients/s3/s3.go:386-424 | takes a Delete from its lookup to success or to the failure it reports |
| `BucketClient.AwaitDeletion` | pkg/clients/s3/s3.go:401-424 | from an accepted job to success if the job ended well, to its failure if it did not, or to the wait's own failure |
| `Client.FirstExact` | pkg/clients/s3/s3.go:723-735 | the loop finds the first record with exactly the name, or that there is none |
| `Client.CreateOrUpdatePolicy` | pkg/clients/s3/s3.go:737-766 | takes the Grant past its policy, by POST or on conflict by PATCH, or to the error it reports |
| `Client.CreateOrRotateUser` | pkg/clients/s3/s3.go:768-794 | takes the Grant past its user with the keys just minted, or to the error it reports |
| `Client.CreateGroupIfNeeded` | pkg/clients/s3/s3.go:796-813 | takes the Grant past its group, a conflict counting as success |
| `Client.CreateBucketAccess` | pkg/clients/s3/s3.go:427-448 | takes the Grant through policy, user and group of one bucket, in that order |
| `Client.DeleteGroupIfExists` | pkg/clients/s3/s3.go:828-844 | takes the Revoke past every listed group of exactly the name, a missing one counting as deleted |
| `Client.DeletePolicyIfExists` | pkg/clients/s3/s3.go:846-853 | takes the Revoke past its policy |
| `Client.DeleteUserIfExists` | pkg/clients/s3/s3.go:855-862 | takes the Revoke past the shared user |
| `Client.DeleteBucketAccess` | pkg/clients/s3/s3.go:451-466 | takes the Revoke through group, policy and user of one bucket, in that order |
| `Driver.DriverCreateBucket` | pkg/driver/provisioner.go:73-138 | an RPC whose tenant cannot be loaded is answered Unavailable and changes no service; an injected error calls nothing; otherwise only the resolved service moves, the reply is that of the machine's Create of the override's bucket, or else of the one asked for, and a success reports that bucket |
| `Driver.DriverDeleteBucket` | pkg/driver/provisioner.go:145-165 | the same for the machine's Delete of the overridden id |
| `Driver.DriverGrantBucketAccess` | pkg/driver/provisioner.go:181-264 | the same for the machine's Grant; the injected error comes after the check for an empty bucket list |
| `Driver.DriverRevokeBucketAccess` | pkg/driver/provisioner.go:276-310 | the same for the machine's Revoke of the overridden buckets |
| `Driver.CreateOn` | pkg/driver/provisioner.go:81-138 | on the resolved client: existence check, comparison and creation reply what the machine's Create of the override's bucket, or else of the one asked for, replies |
| `Driver.DeleteOn` | pkg/driver/provisioner.go:153-165 | on the resolved client: the deletion replies what the machine's Delete replies |
| `Driver.GrantOn` | pkg/driver/provisioner.go:189-264 | on the resolved client: the loop over the buckets replies what the machine's Grant replies, the requested ids in order and the keys of the last rotation |
| `Driver.RevokeOn` | pkg/driver/provisioner.go:284-310 | on the resolved client: the loop replies what the machine's Revoke of the overridden buckets replies |
| `Driver.ReturnedGrantStands` | pkg/driver/provisioner.go:181-264 | once a Grant has returned, the object it worked on holds its bindings and the returned keys |
| `Driver.ReturnedKeysAreLive` | pkg/driver/provisioner.go:181-264 | once a Grant has returned, its keys are the stored ones and its list is the requested one, whatever the names and whatever else the service holds |
| `Driver.ReturnedRevokeStands` | pkg/driver/provisioner.go:276-310 | once a Revoke has returned, the object holds nothing of the account for its buckets |
| `Driver.ReturnedCreateStands` | pkg/driver/provisioner.go:73-138 | once a validated Create has returned, the object holds the one bucket of its name with the size it asked for; if it asked for none, the one bucket of its name, where listings are filtered |
| `Driver.ReturnedDeleteStands` | pkg/driver/provisioner.go:145-165 | once a Delete has returned, the object holds none of the buckets that had its name at the start |
| `Service.Backend.Do` | pkg/clients/s3/s3.go:637-708 | a REST call is made only if it is the one the RPC waits for, anything may happen before it, and the object stays where a run of the machine leads |

## Left out

- HTTP transport, JSON, TLS and CA loading, URL parsing and path escaping; two functions of `Tenancy.Setup` stand for what they make of a URL and of a CA file.
- White space at the ends of bucket ids, account names and UUIDs: request paths trim it and request bodies do not, while the model takes a name to be the same in both.
- Text beyond ASCII: case folding, white space and byte lengths are those of ASCII strings.
- The wording of errors beyond what classification looks at, and the endpoint, region and addressing style in responses.
- The constant parts of request bodies (policy statement id, effect and actions, user and group comments, the retention period).
- The S3 endpoint, protocol and identity services, the Azure branch of the credentials, and the fake client.
- Reading the configuration file; of error injection only the early return.
- The process itself (sockets, signals, gRPC server), Helm and kustomize files, and access to the Kubernetes API; the Secrets an RPC sees are given with the RPC.
- The sidecar and the COSI controller: an arbitrary caller takes their place, except that one access RPC per account is in flight at a time.
- A call of an abandoned attempt that takes effect only after the next attempt has begun.
- SameSizeCreatesAreFaithful: asks that bucket listings hold only records of the name asked for, because BucketExists counts records without comparing names; `Overrides.UnfilteredContractExactly` says what holds without that.
- GroupsAlwaysHaveTheirPolicy: asks for one access RPC at a time; which accounts may be served side by side `Linkage.LinkedExactly` says exactly.
- ServeAll: serves its RPCs one after the other, with arbitrary other RPCs at each service in between; RPCs of several tenants at once are the subject of `Clusters`.
