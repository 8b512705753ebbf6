# opsbox Rego checks: a Dafny model

opsbox runs cost and hygiene checks over cloud inventories. A provider
gathers a snapshot of the inventory. The Rego handler sends that snapshot to
OPA and unpacks OPA's decision. Each check plugin then reshapes the decision
into a `Result`: a `details` payload plus a `formatted` text. This project
models the Python side of that pipeline:

- the `format_data` / `format_result` / `filter_snapshots` selections of the
  S3, RDS, EC2, IAM, ELB, EFS and Azure checks;
- the `report_findings` branch choices and entry reshaping;
- the `inject_data` hooks that write a configured threshold into the
  snapshot;
- the handler's package-name extraction, policy path, provider selection and
  decision unpacking;
- the IAM provider's credential-report splitting.

Every operation is a pure function over a JSON-like `Value`. Python
exceptions are results: `Err(KeyError)`, `Err(TypeError)` and so on. Each
check's contract says exactly which inputs raise and what comes back
otherwise.

Layout:

- `wrappers.dfy`: `Option`, `Result` and the exception classes.
- `values.dfy`: `Value` together with Python truthiness, `.get`, subscripts,
  hashability, numeric `<`, iteration and `len`.
- `seqs.dfy`: filtering, mapping, flattening and `str.replace`, each with a
  raising variant where the loop body can raise.
- `text.dfy`: `str.strip`, `str.split` and `str.splitlines`.
- `checks.dfy`: the `Result` shape, keyed entries, `inject_data`,
  percentages, and the list/dict dispatch the IAM checks share.
- One file per check, one for the Rego handler and one for the
  credential-report splitting.

Parameters stand in for what the model does not compute:

- `parse` for `datetime.fromisoformat(...).timestamp()`;
- `show` for `str()` of a float, list or dict;
- `threshold` / `nanos` for the configured date or value as a timestamp.

Behaviour kept from the Python code:

- Percentages are `100 * matched / total`, or the integer 0 for an empty
  total; the model keeps the share as an exact rational number.
- Configured thresholds are used as given, whatever their value.
- Fields are read with Python's `.get` and subscripts, with Python's dynamic
  typing. A string is not a number, but a boolean compares as one.
- A per-check edge case of the code, such as `rds_idle` ignoring its
  configured threshold, is modelled as written.

## Model

| member | source | states |
|---|---|---|
| Checks.MakeEntry | aws_rego/ec2_checks/stray_ebs/stray_ebs.py:25-33 | The one-key dict `{key: fields}` is built exactly when the key is hashable, and it keeps that key and those fields. |
| Checks.Inject | aws_rego/s3_checks/storage_class_usage/storage_class_usage.py:52 | The write succeeds exactly when `details` is a dict whose `input` is a dict. The new snapshot then has exactly one added or overwritten key, and every other key at both levels is unchanged. A missing `input` raises KeyError. |
| Checks.Percentage | aws_rego/s3_checks/storage_class_usage/storage_class_usage.py:95-97 | The share is the integer 0 for an empty total. Otherwise it is an exact rational number whose product with the total is 100 times the matched count, and it lies in [0, 100] when matched does not exceed total. |
| Checks.PercentageCompare | aws_rego/s3_checks/storage_class_usage/storage_class_usage.py:100-101 | Comparing a share with a whole-number percentage `c` is the same as comparing `100 * matched` with `c * total`. |
| Checks.Dispatch | aws_rego/iam_checks/unused_policies/unused_policies.py:67-98 | A list is the findings and a dict holds them under the key, defaulting to none. Anything else gets "Error: Invalid data format for details.". Non-empty findings get the found text and empty ones the fixed message. `details` is passed through. |
| StorageClassUsage.Categorize | aws_rego/s3_checks/storage_class_usage/storage_class_usage.py:75-86 | No category list is longer than the bucket list. |
| StorageClassUsage.ClassifySpec | aws_rego/s3_checks/storage_class_usage/storage_class_usage.py:77-86 | One loop iteration raises exactly for a non-dict bucket, or for a truthy non-numeric `last_modified`. Otherwise it answers the GLACIER/STANDARD_IA, stale and MIXED tests. |
| StorageClassUsage.CategorizeSpec | aws_rego/s3_checks/storage_class_usage/storage_class_usage.py:75-86 | The loop completes exactly when no bucket raises. Each list is then exactly the buckets passing its test, in bucket order. |
| StorageClassUsage.ToValue | aws_rego/s3_checks/storage_class_usage/storage_class_usage.py:105-121 | The analysis dict always has `policy_checks`, so it is truthy. |
| StorageClassUsage.FormatData | aws_rego/s3_checks/storage_class_usage/storage_class_usage.py:65-123 | Each category count is at most the bucket total. |
| StorageClassUsage.FormatDataSpec | aws_rego/s3_checks/storage_class_usage/storage_class_usage.py:65-97 | For a list of buckets, or a missing key, the analysis succeeds exactly when no bucket raises. The total is then the number of buckets, and each category is the bucket list filtered by its test. |
| StorageClassUsage.CategoriesSelectExactly | aws_rego/s3_checks/storage_class_usage/storage_class_usage.py:76-86 | Each category is an order-preserving subsequence holding exactly the buckets of that category. No bucket is both GLACIER/IA and MIXED. |
| StorageClassUsage.StaleNeedsTruthyEarlierDate | aws_rego/s3_checks/storage_class_usage/storage_class_usage.py:81 | A bucket is not stale if its `last_modified` is absent, None, 0 or False, or equal to the threshold. |
| StorageClassUsage.PolicyFlags | aws_rego/s3_checks/storage_class_usage/storage_class_usage.py:100-102 | Allow-GLACIER/IA holds iff `100 * count >= 70 * total` with a non-empty total. Flag-stale holds iff `100 * stale > 20 * total`. Allow-no-mixed holds iff there is no MIXED bucket. |
| StorageClassUsage.MissingBucketsFlags | aws_rego/s3_checks/storage_class_usage/storage_class_usage.py:66 | Without a `buckets` key the analysis succeeds with total 0 and flags (false, false, true). |
| StorageClassUsage.ReportFindings | aws_rego/s3_checks/storage_class_usage/storage_class_usage.py:135-213 | The report succeeds exactly when the analysis does, and its details are the analysis dict `format_data` builds. It always takes the found branch, so "No S3 bucket analysis performed." is never produced. |
| StorageClassUsage.InjectData | aws_rego/s3_checks/storage_class_usage/storage_class_usage.py:51-53 | Adds only `s3_stale_bucket_date_threshold` to the snapshot. |
| ObjectLastModified.IsStandardAndOld | aws_rego/s3_checks/object_last_modified/object_last_modified.py:66 | The test raises exactly for an object it cannot subscript or compare. Otherwise it holds iff `StorageClass` is "STANDARD" and `LastModified` is strictly before the threshold. |
| ObjectLastModified.ToValue | aws_rego/s3_checks/object_last_modified/object_last_modified.py:68-73 | The findings dict has exactly the keys `percentage_standard_and_old`, `standard_and_old_objects` and `total_objects`. |
| ObjectLastModified.FormatDataOfList | aws_rego/s3_checks/object_last_modified/object_last_modified.py:64-67 | For a list of objects, `format_data` is the comprehension's filter together with the object count. |
| ObjectLastModified.FormatDataSpec | aws_rego/s3_checks/object_last_modified/object_last_modified.py:64-73 | The analysis succeeds exactly when no object raises. The selection is then the STANDARD-and-old objects as an order-preserving subsequence, the total is the object count, and the share is in [0, 100] (0 for no objects). |
| ObjectLastModified.SelectionIsStrict | aws_rego/s3_checks/object_last_modified/object_last_modified.py:66 | A STANDARD object modified exactly at the threshold is not selected; one a second earlier is. |
| ObjectLastModified.ReportFindings | aws_rego/s3_checks/object_last_modified/object_last_modified.py:83-123 | The report fails whenever `format_data` fails. It always takes the found branch ("No old S3 objects found." is never produced), and its details are the findings dict. |
| ObjectLastModified.ReportedEntries | aws_rego/s3_checks/object_last_modified/object_last_modified.py:86-93 | Once the analysis succeeds, the report fails exactly when a reportable selected object has an unhashable `Key`. Otherwise the shown entries are exactly the selected objects that are dicts with `Key` and `StorageClass`, reshaped to `{Key: {StorageClass}}` in order. Other objects are dropped. |
| ObjectLastModified.InjectData | aws_rego/s3_checks/object_last_modified/object_last_modified.py:50-52 | Adds only `s3_last_modified_date_threshold` to the snapshot. |
| RdsOldSnapshots.Visit | aws_rego/rds_checks/rds_old_snapshots/rds_old_snapshots.py:58 | An inner loop succeeds exactly when the sublist is iterable, and a list yields its items. |
| RdsOldSnapshots.FlattenOfLists | aws_rego/rds_checks/rds_old_snapshots/rds_old_snapshots.py:56-59 | Flattening a list of lists concatenates them in order, and its length is the sum of their lengths. |
| RdsOldSnapshots.FlattenSnapshotsOk | aws_rego/rds_checks/rds_old_snapshots/rds_old_snapshots.py:56-59 | Flattening succeeds exactly when every sublist is iterable. |
| RdsOldSnapshots.CreatedBefore | aws_rego/rds_checks/rds_old_snapshots/rds_old_snapshots.py:67-72 | The test raises exactly for a snapshot without a parseable `SnapshotCreateTime` string. Otherwise it holds iff the creation instant is strictly before the threshold. |
| RdsOldSnapshots.FindOld | aws_rego/rds_checks/rds_old_snapshots/rds_old_snapshots.py:41-79 | Every returned snapshot is old. |
| RdsOldSnapshots.FindingsValue | aws_rego/rds_checks/rds_old_snapshots/rds_old_snapshots.py:76 | The result dict has exactly the key `rds_old_snapshots`, holding the old snapshots, and is truthy. |
| RdsOldSnapshots.FindOldSpec | aws_rego/rds_checks/rds_old_snapshots/rds_old_snapshots.py:53-73 | For a list of lists, or a missing key, the search succeeds exactly when no flattened snapshot raises. It then returns exactly the old ones as an order-preserving subsequence of the flattened list. |
| RdsOldSnapshots.DictOfSublists | aws_rego/rds_checks/rds_old_snapshots/rds_old_snapshots.py:57-58 | A dict of sublists succeeds only when its keys are at most the empty string, and then finds nothing. |
| RdsOldSnapshots.OldIsStrict | aws_rego/rds_checks/rds_old_snapshots/rds_old_snapshots.py:72 | A snapshot created exactly at the threshold is not old; it is old under a threshold one second later. |
| RdsOldSnapshots.ReportFindings | aws_rego/rds_checks/rds_old_snapshots/rds_old_snapshots.py:103-137 | The report always takes the found branch ("No old RDS snapshots found." is never produced), and its details are the findings dict. |
| RdsOldSnapshots.ReportedLines | aws_rego/rds_checks/rds_old_snapshots/rds_old_snapshots.py:105-111 | The report succeeds exactly when every old snapshot has a `SnapshotIdentifier`. It then shows one line per old snapshot, in order, naming its identifier and creation time. |
| RdsOldSnapshots.InjectData | aws_rego/rds_checks/rds_old_snapshots/rds_old_snapshots.py:91-93 | Adds only `rds_old_date_threshold`, in nanoseconds, to the snapshot. |
| Ec2OldSnapshots.StartedBefore | aws_rego/ec2_checks/ec2_old_snapshots/ec2_old_snapshots.py:55 | The test raises exactly for a snapshot without a parseable `start_time`. Otherwise it holds iff the start instant is strictly before the threshold. |
| Ec2OldSnapshots.FilterSnapshots | aws_rego/ec2_checks/ec2_old_snapshots/ec2_old_snapshots.py:41-58 | Every returned snapshot is old. |
| Ec2OldSnapshots.FindingsValue | aws_rego/ec2_checks/ec2_old_snapshots/ec2_old_snapshots.py:57 | The result dict has exactly the key `ec2_old_snapshots` and is truthy. |
| Ec2OldSnapshots.FilterSnapshotsSpec | aws_rego/ec2_checks/ec2_old_snapshots/ec2_old_snapshots.py:51-56 | For a list of snapshots, the filter succeeds exactly when none raises. It then returns exactly the old ones as an order-preserving subsequence. |
| Ec2OldSnapshots.OldIsStrict | aws_rego/ec2_checks/ec2_old_snapshots/ec2_old_snapshots.py:55 | A snapshot started exactly at the threshold is not old; it is old under a threshold one second later. |
| Ec2OldSnapshots.ReportFindings | aws_rego/ec2_checks/ec2_old_snapshots/ec2_old_snapshots.py:69-104 | The report always takes the found branch ("No old EC2 snapshots found." is never produced), and its details are the findings dict. |
| Ec2OldSnapshots.ReportedLines | aws_rego/ec2_checks/ec2_old_snapshots/ec2_old_snapshots.py:71-77 | The report succeeds exactly when every old snapshot has a `snapshot_id`. It then shows one line per old snapshot, in order, naming its id and start time. |
| UnusedPolicies.IsUnused | aws_rego/iam_checks/unused_policies/unused_policies.py:51 | The test raises exactly for a non-dict policy, or a count that cannot be compared. Otherwise it holds iff `attachment_count` is strictly below the threshold. |
| UnusedPolicies.FormatResult | aws_rego/iam_checks/unused_policies/unused_policies.py:46-54 | Every returned policy is unused. |
| UnusedPolicies.FormatResultSpec | aws_rego/iam_checks/unused_policies/unused_policies.py:46-54 | For a list of policies, the filter succeeds exactly when none raises. It then returns exactly the unused ones as an order-preserving subsequence. |
| UnusedPolicies.NothingBelowZero | aws_rego/iam_checks/unused_policies/unused_policies.py:12-19 | With the default threshold 0 and non-negative counts, no policy is ever reported. |
| UnusedPolicies.ReportFindings | aws_rego/iam_checks/unused_policies/unused_policies.py:64-108 | The report succeeds exactly when `format_result` does, and its details are the selected list. The text is the found text iff the list is non-empty, and "No unused IAM policies found." otherwise. The dict and invalid-format branches are never taken. |
| MfaEnabled.IsWithoutMfa | aws_rego/iam_checks/mfa_enabled/mfa_enabled.py:24 | The test raises exactly for a non-dict row. Otherwise it holds iff `mfa_active` is exactly the string "false". |
| MfaEnabled.FormatResult | aws_rego/iam_checks/mfa_enabled/mfa_enabled.py:20-31 | Every returned user lacks MFA. |
| MfaEnabled.FindingsValue | aws_rego/iam_checks/mfa_enabled/mfa_enabled.py:27-29 | The result dict has exactly the key `users_without_mfa`. |
| MfaEnabled.FormatResultSpec | aws_rego/iam_checks/mfa_enabled/mfa_enabled.py:20-25 | For a list of rows, the filter succeeds exactly when every row is a dict. It then returns exactly the rows without MFA, as an order-preserving subsequence. |
| MfaEnabled.ProviderRowsAccepted | aws_rego/iam_checks/mfa_enabled/mfa_enabled.py:23-25 | Rows produced by the IAM provider's report splitting never make the filter raise. |
| MfaEnabled.ReportFindings | aws_rego/iam_checks/mfa_enabled/mfa_enabled.py:41-85 | The report succeeds exactly when `format_result` does, and its details are the result dict. The text is the found text iff some user lacks MFA, and "No IAM users found without MFA." otherwise. The list and invalid-format branches are never taken. |
| CredentialReport.Record | aws_providers/iam/iam_provider/iam_provider.py:117 | A row's keys are exactly the header names that have a matching field (`zip` stops at the shorter side). |
| CredentialReport.RecordLastWins | aws_providers/iam/iam_provider/iam_provider.py:117 | When a header name repeats, the last field under that name wins. |
| CredentialReport.RecordSize | aws_providers/iam/iam_provider/iam_provider.py:117 | With distinct header names, a row has as many keys as the shorter of header and line. |
| CredentialReport.Rows | aws_providers/iam/iam_provider/iam_provider.py:116-119 | There is one row per line after the header, and each row is a dict. |
| CredentialReport.RowsAreRecords | aws_providers/iam/iam_provider/iam_provider.py:116-119 | Row `i` is the record of line `i + 1` under the header line. |
| CredentialReport.RowsOfWrittenReport | aws_providers/iam/iam_provider/iam_provider.py:116-119 | For a report written as a header and rows, each ending in a newline, the rows come back one per written row, in order. |
| NoHealthyTargets.Either | aws_rego/elb_checks/no_healthy_targets/no_healthy_targets.py:26 | `d.get(upper, d.get(lower))` succeeds exactly on a dict and prefers the first spelling. |
| NoHealthyTargets.IsUnhealthy | aws_rego/elb_checks/no_healthy_targets/no_healthy_targets.py:28 | A target test raises exactly for a non-dict target. Otherwise it holds iff its `State` (or `state`) is "unhealthy". |
| NoHealthyTargets.HasNoHealthySpec | aws_rego/elb_checks/no_healthy_targets/no_healthy_targets.py:25-29 | A load balancer's test raises exactly in the cases `Raises` names. Otherwise it holds iff every target is unhealthy. |
| NoHealthyTargets.EmptyHealthFlagged | aws_rego/elb_checks/no_healthy_targets/no_healthy_targets.py:29 | A load balancer with no targets is flagged (`all([])` is true). |
| NoHealthyTargets.StatelessEntryNotFlagged | aws_rego/elb_checks/no_healthy_targets/no_healthy_targets.py:28 | A target with no state is not unhealthy, so its load balancer is not flagged. |
| NoHealthyTargets.FormatData | aws_rego/elb_checks/no_healthy_targets/no_healthy_targets.py:22-32 | Every returned load balancer has no healthy target. |
| NoHealthyTargets.FormatDataSpec | aws_rego/elb_checks/no_healthy_targets/no_healthy_targets.py:22-32 | For a list of load balancers, or a missing key, the loop succeeds exactly when none raises. It then returns exactly the flagged ones, in order. |
| NoHealthyTargets.ReportFindings | aws_rego/elb_checks/no_healthy_targets/no_healthy_targets.py:37-72 | The details are the flagged list, or a fresh empty list. The text is "No ELBs found with no healthy targets." iff nothing is flagged. |
| StrayEbs.IsStray | aws_rego/ec2_checks/stray_ebs/stray_ebs.py:11 | The test raises exactly for a volume without `state`. Otherwise it holds iff `state` is not "in-use". |
| StrayEbs.FormatResults | aws_rego/ec2_checks/stray_ebs/stray_ebs.py:9-12 | Every returned volume is stray. |
| StrayEbs.FormatResultsSpec | aws_rego/ec2_checks/stray_ebs/stray_ebs.py:10-11 | For a list of volumes, the comprehension succeeds exactly when every volume has `state`. It then returns exactly the stray volumes, in order. |
| StrayEbs.Digits | aws_rego/ec2_checks/stray_ebs/stray_ebs.py:30 | The decimal rendering of a size is non-empty and all digits. It is one character exactly for sizes below 10. |
| StrayEbs.DigitsRoundTrip | aws_rego/ec2_checks/stray_ebs/stray_ebs.py:30 | Reading the decimal rendering back gives the size, and only 0 renders with a leading zero. |
| StrayEbs.SizeLabel | aws_rego/ec2_checks/stray_ebs/stray_ebs.py:30 | The size label always ends in "MB". |
| StrayEbs.SizeLabelOfInt | aws_rego/ec2_checks/stray_ebs/stray_ebs.py:30 | An integer size is labelled with its own decimal digits followed by "MB". |
| StrayEbs.EntryOfSpec | aws_rego/ec2_checks/stray_ebs/stray_ebs.py:25-33 | A volume is reshaped exactly when it has a hashable `volume_id` and the other four keys, giving `{volume_id: {...}}`. |
| StrayEbs.ReportFindings | aws_rego/ec2_checks/stray_ebs/stray_ebs.py:22-54 | The report fails whenever the filter fails, and it has one entry per stray volume. Its text is "No stray EBS volumes found." iff there is none. |
| StrayEbs.ReportedEntries | aws_rego/ec2_checks/stray_ebs/stray_ebs.py:24-34 | The report succeeds exactly when every stray volume can be reshaped. Entry `i` is then stray volume `i`, keyed by its id. |
| RdsIdle.IdleMessages | aws_rego/rds_checks/rds_idle/rds_idle.py:70-77 | The loop succeeds exactly when no instance raises. It then yields one message per idle instance, in order. |
| RdsIdle.CutoffIsLiteral | aws_rego/rds_checks/rds_idle/rds_idle.py:73 | Idleness uses the literal 5, not the configured threshold. CPU 4 is idle, 5 is not, and a missing CPU value counts as 0. |
| RdsIdle.ReportFindings | aws_rego/rds_checks/rds_idle/rds_idle.py:65-117 | `details` is passed through in every branch, and a non-list gets "Error: Invalid data format for findings.". A list is reported iff no instance raises. It gets the found text iff some instance is idle, showing one message per idle instance in list order, and "No idle RDS instances found." otherwise. |
| RdsIdle.InjectData | aws_rego/rds_checks/rds_idle/rds_idle.py:52-55 | Adds only `rds_cpu_idle_threshold` to the snapshot. |
| HighErrorRate.Shape | aws_rego/elb_checks/high_error_rate/high_error_rate.py:56-75 | The lower-case spelling wins. Either spelling is reshaped to `{name: {type, error_rate}}` with lower-case inner keys. |
| HighErrorRate.ReshapeValid | aws_rego/elb_checks/high_error_rate/high_error_rate.py:55-85 | When every entry passes, the loop yields exactly the valid entries, reshaped, in order, and never more entries than load balancers. |
| HighErrorRate.UnboundName | aws_rego/elb_checks/high_error_rate/high_error_rate.py:76-85 | An invalid entry with no name, after only valid ones, raises NameError: the unbound `name` is read. |
| HighErrorRate.ReportFindings | aws_rego/elb_checks/high_error_rate/high_error_rate.py:47-112 | `details` is passed through. The fallback text is given iff `details` is falsy, and a truthy dict raises AttributeError. |
| HighErrorRate.ReshapeOk | aws_rego/elb_checks/high_error_rate/high_error_rate.py:55-85 | The loop succeeds exactly when every entry passes: each is a dict (`.get` raises AttributeError otherwise), a valid entry's name is hashable (TypeError otherwise), and an unnamed invalid entry comes after some named invalid one (NameError otherwise). |
| HighErrorRate.ReportedEntries | aws_rego/elb_checks/high_error_rate/high_error_rate.py:50-104 | A non-empty list is reported exactly when every entry passes, and the found text then shows exactly the valid entries, reshaped, in order. |
| HighErrorRate.InjectData | aws_rego/elb_checks/high_error_rate/high_error_rate.py:124-127 | Adds only `elb_error_rate_threshold` to the snapshot. |
| HighPercentIoLimit.Step | aws_rego/efs_checks/high_percentiolimit/high_percentiolimit.py:55-72 | One iteration raises exactly for a valid entry with an unhashable `Id`, and otherwise keeps only valid entries, reshaped. |
| HighPercentIoLimit.ReportFindings | aws_rego/efs_checks/high_percentiolimit/high_percentiolimit.py:47-99 | `details` is passed through, and the fallback text is given iff `details` is falsy. Only truthy details can raise, and a dict is reported with no entries. |
| HighPercentIoLimit.ReportedEntries | aws_rego/efs_checks/high_percentiolimit/high_percentiolimit.py:50-91 | A non-empty list succeeds exactly when every valid entry has a hashable `Id`. It then shows the valid entries, reshaped, in order, never more than there are file systems. |
| HighPercentIoLimit.StringDetailsShowNothing | aws_rego/efs_checks/high_percentiolimit/high_percentiolimit.py:55-72 | A non-empty string is iterated by character, and every character is dropped. |
| HighPercentIoLimit.InjectData | aws_rego/efs_checks/high_percentiolimit/high_percentiolimit.py:111-114 | Adds only `efs_percent_io_limit_threshold` to the snapshot. |
| Ec2IdleInstances.EntryOf | aws_rego/ec2_checks/idle_instances/idle_instances/idle_instances.py:64-73 | An instance is reshaped exactly when it has a hashable `instance_id` and the four copied keys. `operating_system` defaults to "N/A" and `tags` to `{}`. A dict that fails raises KeyError or TypeError. |
| Ec2IdleInstances.ReportFindings | aws_rego/ec2_checks/idle_instances/idle_instances/idle_instances.py:60-98 | `details` is passed through, and "No idle EC2 instances found." is given iff `details` is falsy. Anything but a list, an empty string or an empty dict raises TypeError. |
| Ec2IdleInstances.ReportedEntries | aws_rego/ec2_checks/idle_instances/idle_instances/idle_instances.py:62-74 | A list succeeds exactly when every instance can be reshaped. It then shows one entry per instance, in order. |
| Ec2IdleInstances.InjectData | aws_rego/ec2_checks/idle_instances/idle_instances/idle_instances.py:49-50 | Adds only `ec2_cpu_idle_threshold` to the snapshot. |
| AzureIdleVms.EntryOf | azure_rego/vm_checks/azure_idle_instances/azure_idle_instances.py:69-78 | A VM is reshaped exactly when it has a hashable `vm_id`, `location`, `avg_cpu_utilization` and `vm_size`. `power_state` defaults to "running", `operating_system` to "N/A" and `tags` to `{}`. |
| AzureIdleVms.ReportFindings | azure_rego/vm_checks/azure_idle_instances/azure_idle_instances.py:65-102 | `details` is passed through, and "No idle Azure VMs found." is given iff `details` is falsy. Anything but a list, an empty string or an empty dict raises TypeError. |
| AzureIdleVms.ReportedEntries | azure_rego/vm_checks/azure_idle_instances/azure_idle_instances.py:67-79 | A list succeeds exactly when every VM can be reshaped. It then shows one entry per VM, in order. |
| AzureIdleVms.InjectData | azure_rego/vm_checks/azure_idle_instances/azure_idle_instances.py:50-53 | Adds only `azure_vm_cpu_idle_threshold` to the snapshot. |
| RegoHandler.MatchPackage | handlers/rego_handler/rego_handler/rego_handler.py:125-131 | A matched package name is non-empty and made of `[a-zA-Z0-9_.]`. |
| RegoHandler.MatchSound | handlers/rego_handler/rego_handler/rego_handler.py:125 | A match comes from a reading of the stripped line as "package", whitespace, the name, and a tail that does not continue the name. |
| RegoHandler.MatchComplete | handlers/rego_handler/rego_handler/rego_handler.py:125 | Any such reading yields exactly that name. |
| RegoHandler.MatchPackageSpec | handlers/rego_handler/rego_handler/rego_handler.py:125-131 | A line yields `name` iff its stripped text reads as "package", whitespace, `name`, and a non-name tail. |
| RegoHandler.MatchStopsAtOtherChar | handlers/rego_handler/rego_handler/rego_handler.py:125 | The name stops at the first character outside the class: "package a.b-c" gives "a.b". |
| RegoHandler.MatchNeedsSpace | handlers/rego_handler/rego_handler/rego_handler.py:125 | "packagefoo" does not match. |
| RegoHandler.FirstGroup | handlers/rego_handler/rego_handler/rego_handler.py:129-134 | The scan succeeds iff some line matches, and its name is some matching line's group. Otherwise it raises ValueError. |
| RegoHandler.FirstGroupWins | handlers/rego_handler/rego_handler/rego_handler.py:129-133 | The first matching line decides, whatever follows it. |
| RegoHandler.FirstGroupIsFirst | handlers/rego_handler/rego_handler/rego_handler.py:129-133 | A successful scan returns the group of a matching line before which no line matches. |
| RegoHandler.ExtractPackageName | handlers/rego_handler/rego_handler/rego_handler.py:112-134 | The scan succeeds iff some line holds a package declaration, and the name is non-empty and in the name class. Otherwise it raises ValueError. |
| RegoHandler.FirstMatchWins | handlers/rego_handler/rego_handler/rego_handler.py:129-133 | A found package name is the group of the first line holding a package declaration; every earlier line fails to match. |
| RegoHandler.PolicyPath | handlers/rego_handler/rego_handler/rego_handler.py:201 | The path has the name's length and no ".". |
| RegoHandler.PolicyPathInverse | handlers/rego_handler/rego_handler/rego_handler.py:201 | A package name has no "/", so replacing "/" by "." in its path gives the name back. |
| RegoHandler.SelectData | handlers/rego_handler/rego_handler/rego_handler.py:94-105 | Selection raises "Rego plugins can only use one provider." iff two used providers are listed. A gathered provider is one of them. With none, the check runs on the first prior result, or on a fresh empty one. |
| RegoHandler.UnpackDecision | handlers/rego_handler/rego_handler/rego_handler.py:217-218 | Unpacking succeeds iff the response is a dict. It yields `result.details` when present, and `[]` when `result` is missing, not a dict, or has no `details`. |
| Text.Strip | handlers/rego_handler/rego_handler/rego_handler.py:130 | The stripped text is no longer than the line, has no whitespace at either end, and is empty only for an all-whitespace line. |
| Text.StripPadded | handlers/rego_handler/rego_handler/rego_handler.py:130 | Stripping removes exactly the surrounding whitespace. |
| Text.StripTwice | handlers/rego_handler/rego_handler/rego_handler.py:130 | Stripping is idempotent. |
| Text.Split | aws_providers/iam/iam_provider/iam_provider.py:117 | Splitting gives at least one part, and no part contains the separator. |
| Text.SplitJoin | aws_providers/iam/iam_provider/iam_provider.py:117 | Joining the parts with the separator gives back the line. |
| Text.SplitCount | aws_providers/iam/iam_provider/iam_provider.py:117 | There is one more part than separators. |
| Text.SplitLines | aws_providers/iam/iam_provider/iam_provider.py:116-118 | Every line is free of line breaks. |
| Text.SplitLinesTerminated | aws_providers/iam/iam_provider/iam_provider.py:116-118 | Splitting newline-terminated lines gives them back. |
| Seqs.ReplaceAll | handlers/rego_handler/rego_handler/rego_handler.py:201 | Replacing `x` by a text without `x` leaves no `x`. |
| Seqs.ReplaceAllLength | handlers/rego_handler/rego_handler/rego_handler.py:201 | Each replaced occurrence changes the length by the replacement's length minus one, and text without `x` is unchanged. |
| Seqs.ReplaceAllInverse | handlers/rego_handler/rego_handler/rego_handler.py:201 | Replacing `x` by a fresh `y` and then `y` by `x` restores the text. |

## Left out

- Logging, YAML rendering and the template text: a report's `formatted` is
  `Found(shown)` with the data the template shows, or the fixed fallback
  string.
- The constant `relates_to`, `result_name` and `result_description` of each
  returned `Result`.
- `yaml.dump` raising: the model assumes it does not. In `stray_ebs`,
  `high_error_rate`, `idle_instances`, `azure_idle_instances`,
  `ec2_old_snapshots` and `rds_old_snapshots` such an exception would leave
  a local unbound and raise later. In the two snapshot checks the `except`
  branch resets `old_snapshots` to `""`, but the template reads
  `old_snapshots_yaml`, which stays unbound.
- Checks.Percentage: shares are exact rationals. IEEE-754 rounding of
  Python's `/` is not modelled, nor is the evaluation order
  `(matched / total) * 100` of
  aws_rego/s3_checks/object_last_modified/object_last_modified.py:67, which
  can round differently from `100 * matched / total`; the product with the
  total is exactly 100 times the matched count only for the rational. The 70
  and 20 percent tests agree with the floats for any realistic total.
- Floating point: instants and thresholds are integers (whole seconds). ISO
  parsing, including the "Z" to "+00:00" rewrite, is the parameter `parse`.
- The configuration models (pydantic) and `grab_config` / `set_data`: the
  configured value is a parameter.
- The order in which a Python dict iterates its keys. A dict iterated where a
  list is expected yields strings, and every check raises on them or drops
  them regardless of order.
- StrayEbs.SizeLabel: `str()` of a float, list or dict is the parameter
  `show`. Integers, strings, booleans and None are rendered exactly.
- `stray_ebs.report_findings` assigns `formatted` on the incoming `Result`
  object. The model returns the new `Result` only.
- `ec2_old_snapshots` logs `len(snapshot)` after its loop. `snapshot` is then
  the empty collection itself, or the last snapshot, which was just
  subscripted, so the call cannot raise; the log is not modelled.
- `rds_idle`'s configured threshold is only injected. The filter uses the
  literal 5, as `RdsIdle.CutoffIsLiteral` states.
- Reading the Rego file: `extract_package_name` takes the file's lines, with
  line endings already removed. The `print` of the name is not modelled.
- OPA's HTTP API (`temp_policy` upload and delete, the decision query), the
  status-code log, and the calls to `gather_data` / `report_findings`: they
  are I/O or plugin code outside this model.
- The rest of each provider's `gather_data`, which calls cloud APIs. Only
  the credential-report comprehension is modelled.
- The `Result` fields `apply_check` fills other than `details`.
