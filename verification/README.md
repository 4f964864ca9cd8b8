# EC2 instance-type optimisation bot — a Dafny model

The bot is a serverless function with two entry paths.

- **Scheduled scan.** It walks every region and lists the running EC2 instances that have been up for at least an hour. It reduces each instance's recent one-minute CPU samples to an average and a maximum. The sizing advisor then proposes the adjacent size tier of the same family: one tier up when the average is at least 1.5 × the threshold, one tier down when it is below half the threshold. A proposal is made only when the provider confirms that the candidate type exists. The proposals are posted to a chat webhook as a list of blocks, and each proposal carries an approve button whose value is the JSON of the change.
- **Button callback.** The bot base64-decodes the callback body when it is flagged, unquotes it and removes the `payload=` prefix by position. It parses the document, takes the first action's button value and removes every `+` from it. The value arrives form-encoded, so the spaces `json.dumps` wrote after `:` and `,` arrive as `+`, and removing them leaves parseable JSON. It then parses the value, applies the resize and posts a one-line report.

The model has one module per concern:

| file | module | concern |
|---|---|---|
| `wrappers.dfy` | `Wrappers` | `Option` and `Result`, with failure propagation |
| `sizing.dfy` | `Sizing` | tier list, type splitting, the advisor |
| `metrics.dfy` | `Metrics` | sorting and reducing CPU samples |
| `payload.dfy` | `Payload` | the button value: a JSON writer for the four-field object and a parser for it |
| `callback.dfy` | `Callback` | prefix removal, `+` removal, the form encoding of spaces, the button round trip |
| `notify.dfy` | `Notify` | block layout and the webhook post |
| `scanner.dfy` | `Scanner` | warm-up filter, Name tag, the per-region and all-region loops |
| `handler.dfy` | `Handler` | the entry dispatcher, the change report, the "nothing to do" post |

Everything outside the function is a parameter:

- The CPU threshold and the webhook URL are values.
- The current time is an integer number of seconds. The scan reads it afresh for each region's listing, so it is a function `clock` from region name to reading.
- The provider's answers are functions returning `Result`, where `Err` stands for a raised exception. They are the instance listing per region, the CPU samples per instance and the `describe_instance_types` existence check.
- The region list is a `Result` too. It is fetched outside any `try`, so its `Err` makes the whole invocation raise (`Handler.Raised`).
- Base64 decoding, URL unquoting and the parser of the outer callback document are functions.
- The EC2 side of one change is two functions. One creates the region's client, which happens outside the `try` and may raise. The other is the resize itself (stop, wait, modify, start), whose errors are caught.
- How a CPU percentage is printed is a function `real -> string`.

## Model

| member | source | states |
|---|---|---|
| Sizing.SizeOrderDistinct | lambda_handler.py:59-61 | the fifteen size tiers are pairwise distinct, so `index` finds each tier's single position |
| Sizing.LastDot | lambda_handler.py:67 | finds the last `.`: absent exactly when the type has none; otherwise it is in range, is a dot, and no dot follows it |
| Sizing.SplitType | lambda_handler.py:65-67 | `rsplit('.', 1)` under the `'.' in` guard: `None` iff there is no dot; otherwise `family + "." + size` rebuilds the type and the size has no dot |
| Sizing.SplitJoin | lambda_handler.py:67 | splitting `family.size` with a dot-free size gives back exactly `(family, size)`, even when the family has dots |
| Sizing.IndexOf | lambda_handler.py:68-71 | `in` and `index`: found iff present; the position holds the element and no earlier position does, so it is the first occurrence |
| Sizing.Tier | lambda_handler.py:68-71 | a size has a tier iff it is in the tier list, and the tier indexes to that size |
| Sizing.TierOf | lambda_handler.py:71 | the tier of the i-th size is i |
| Sizing.LowerThreshold | lambda_handler.py:72 | the lower edge is half the threshold: twice it is the threshold, and for a non-negative threshold it lies between 0 and the threshold |
| Sizing.UpperThreshold | lambda_handler.py:73 | the upper edge is one and a half times the threshold: twice it is three thresholds, and for a non-negative threshold it is at least the threshold |
| Sizing.ThresholdBand | lambda_handler.py:72-83 | the lower edge is at most the upper edge iff the threshold is not negative, and the two coincide iff the threshold is 0 |
| Sizing.Confirm | lambda_handler.py:78-82 | the candidate is returned iff the existence check answers truthfully without raising; a raise or a falsy answer gives `None` |
| Sizing.SuggestInstanceType | lambda_handler.py:63-92 | no dot or an unknown size gives `None`; the band `threshold/2 <= avg < 1.5*threshold` gives `None`; a proposal is confirmed by the provider, differs from the current type, keeps the family and is one tier up under high load or one tier down under low load |
| Sizing.MovedTier | lambda_handler.py:79-88 | `family.<tier j>` splits into the same family as `family.<tier i>`, sits exactly j - i tiers away from it, and differs from it |
| Sizing.Upsize | lambda_handler.py:75-80 | high load on any tier below the last, with the next tier confirmed, yields exactly `family.<next tier>` |
| Sizing.Downsize | lambda_handler.py:83-88 | low load on any tier above the first, with the previous tier confirmed, yields exactly `family.<previous tier>` |
| Sizing.NoUpsizeAtTop | lambda_handler.py:77 | `64xlarge` is never upsized, whatever the oracle says |
| Sizing.NoDownsizeAtBottom | lambda_handler.py:85 | `nano` is never downsized, whatever the oracle says |
| Sizing.DefaultThresholdLowLoad | lambda_handler.py:72 | with the threshold 50, `t3.medium` at 10% becomes `t3.small` |
| Sizing.DefaultThresholdHighLoad | lambda_handler.py:73 | with the threshold 50, `t3.medium` at 80% becomes `t3.large` |
| Metrics.MaxMaximum | lambda_handler.py:56 | `max` of the maxima: an upper bound of every maximum, and attained by one sample |
| Metrics.SumAveragesAppend | lambda_handler.py:55 | the sum of averages of a concatenation is the sum of the two sums |
| Metrics.Reduce | lambda_handler.py:50-57 | no samples give `(0, 0)`; otherwise the first component times the count is the sum of the averages, and the second is the largest maximum |
| Metrics.SumAveragesPermutation | lambda_handler.py:55 | the sum of averages is the same for any reordering of the samples |
| Metrics.MaxMaximumPermutation | lambda_handler.py:56 | the largest maximum is the same for any reordering of the samples |
| Metrics.ReducePermutation | lambda_handler.py:54-57 | the reduction does not depend on the order of the samples |
| Metrics.ReduceAverageWithin | lambda_handler.py:55 | the reduced average lies between any lower and upper bounds of the per-sample averages |
| Metrics.ReduceAverageBelowMaximum | lambda_handler.py:55-56 | when every sample's average is at most its maximum, the reduced average is at most the reduced maximum |
| Metrics.Insert | lambda_handler.py:54 | inserting into a time-sorted list keeps it sorted and adds exactly that sample |
| Metrics.SortByTime | lambda_handler.py:54 | the result is sorted by timestamp and is a permutation of the input |
| Metrics.CpuUtilization | lambda_handler.py:50-57 | sorting and then reducing gives the same answer as reducing the samples in any order |
| Payload.StringBodyEscape | notify.py:58-63 | reading an escaped string up to its closing quote recovers the string, control characters included, and leaves the rest untouched |
| Payload.HexDigit | notify.py:58-63 | the digit written in a `\u00XX` escape is a lower-case hexadecimal digit whose value is the number it writes |
| Payload.HexQuad | lambda_handler.py:126 | four hexadecimal digits are read as the character with that code: a character is returned only for four digits whose base-16 value is its code, four digits outside the surrogate range always give one, and a surrogate code is refused |
| Payload.RawControlRefused | lambda_handler.py:126 | a string literal holding a raw control character (below U+0020) is refused, as strict `json.loads` refuses it |
| Payload.EscapeCharReads | notify.py:58-63 | any one escaped character followed by a readable rest reads back as that character followed by the rest |
| Payload.ControlEscapeReads | notify.py:58-63 | a control character without a short escape, written as `\u00XX`, reads back as itself |
| Payload.FieldMember | notify.py:58-63 | a written `"key": value` member is read back as its value, whatever whitespace precedes it |
| Payload.DecodeLayout | notify.py:58-63 | the written four-field object parses back to the same payload when any one run of JSON whitespace (none included) follows every `:` and `,` |
| Payload.DecodeEncode | notify.py:58-63 | the `json.dumps` text of the four fields parses back to the same payload |
| Callback.StripPrefix | lambda_handler.py:121 | drops exactly the first eight characters, whatever they are: the body is those eight plus the result; a shorter body gives the empty string |
| Callback.StripPrefixOf | lambda_handler.py:121 | `payload=` followed by a document, or any eight characters followed by it, gives the document |
| Callback.StripPlusSpec | lambda_handler.py:125 | `re.sub(r'\+', '', v)` leaves no `+`, keeps every other character as often as it occurred and in order, and shortens by the number of `+` |
| Callback.StripPlusFixes | lambda_handler.py:125 | a value without `+` is unchanged |
| Callback.StripPlusIdempotent | lambda_handler.py:125 | removing `+` twice equals removing it once |
| Callback.StripPlusAppend | lambda_handler.py:125 | the removal works piece by piece over a concatenation |
| Callback.StripPlusEscape | lambda_handler.py:125 | JSON escaping writes no `+`, so removing `+` commutes with escaping |
| Callback.StripPlusLayout | lambda_handler.py:124-126 | removing `+` from the object written with any gap equals writing the object of the `+`-free fields with the `+`-free gap |
| Callback.ButtonValueDecodes | lambda_handler.py:124-126 | a button value read back through the callback gives the payload with the `+` of each field removed |
| Callback.ButtonValueRoundTrip | lambda_handler.py:124-126 | a button value read back gives the original payload iff no field contains `+` |
| Callback.FormSpaces | lambda_handler.py:121-125 | the form encoding as seen after `unquote`: same length, no space left, each space becomes `+` and every other character stays in place |
| Callback.FormSpacesLayout | lambda_handler.py:121-126 | form-encoding the written object equals writing the object of the form-encoded fields with the form-encoded gap |
| Callback.ArrivedField | lambda_handler.py:121-125 | a field survives form encoding followed by `+` removal iff it contains neither a space nor a `+` |
| Callback.FormValueDecodes | lambda_handler.py:121-126 | the button value as it arrives, its spaces turned into `+`, still parses, and gives the payload with the spaces and `+` of each field removed |
| Callback.FormValueRoundTrip | lambda_handler.py:121-126 | the value as it arrives gives back the original payload iff no field contains a space or a `+` |
| Notify.SendBlocks | notify.py:4-22 | a post happens iff the URL is set (non-empty); it carries exactly that URL and those blocks |
| Notify.ApproveButton | notify.py:58-78 | the value is the encoded four-field payload; the action id is `approve_ec2_change_` plus the instance id, which can be read back from it |
| Notify.SuggestionBlocks | notify.py:42-81 | three blocks per suggestion in input order: section with the suggestion text, actions with its approve button, divider |
| Notify.SuggestionTextShape | notify.py:43-50 | the section text opens with the region line and ends with the recommended type between backquotes |
| Notify.Blocks | notify.py:28-81 | length `2 + 3n`: header, divider, then the triple of suggestion i at positions `2+3i`, `3+3i`, `4+3i` |
| Notify.NotifyEc2Suggestions | notify.py:24-83 | an empty list posts nothing; otherwise a post happens iff the URL is set, with exactly the block list |
| Notify.ButtonsOfAppend | notify.py:52-81 | the buttons of concatenated block lists are the concatenated buttons |
| Notify.ApproveButtons | notify.py:42-78 | one approve button per suggestion, the i-th being suggestion i's |
| Notify.ButtonsOfSuggestionBlocks | notify.py:42-81 | the buttons the suggestion blocks offer are exactly the suggestions' approve buttons, in input order |
| Notify.ButtonsOfBlocks | notify.py:28-83 | the whole block list offers exactly the suggestions' approve buttons, in input order (the header and divider offer none) |
| Notify.ApprovalRoundTrip | notify.py:58-77 | the i-th posted button, read back through the callback, gives suggestion i's payload without `+`, and gives it exactly iff its fields contain no `+` |
| Notify.FormApprovalRoundTrip | notify.py:58-77 | the i-th posted button's value, arriving form-encoded, gives suggestion i's payload without spaces and `+` in its fields, and gives it exactly iff its fields contain neither |
| Scanner.WarmedUpInstances | lambda_handler.py:27-35 | every kept instance is listed and warmed up, every warmed-up listed instance is kept, and each one is kept exactly as often as it is listed (an instance not warmed up never is) |
| Scanner.WarmUpBoundary | lambda_handler.py:27-33 | launched exactly an hour before `now` is kept, 3599 seconds before is not, and a kept instance stays kept at any later time |
| Scanner.WarmedUpAppend | lambda_handler.py:29-34 | filtering a concatenation is the concatenation of the filtered parts, so the filter keeps listing order |
| Scanner.NameTag | lambda_handler.py:161 | `None` iff no tag has key `Name`; otherwise the value of the first such tag |
| Scanner.InstanceSuggestion | lambda_handler.py:155-167 | a suggestion exists iff the advisor proposes a type, and it proposes exactly the advisor's type; it records the instance's id, type, Name tag, usage and region, and the type is confirmed and different |
| Scanner.RegionSuggestions | lambda_handler.py:155-167 | no more suggestions than instances; every suggestion of a region is in that region, proposes a confirmed different type, and comes from a listed instance with that id and type |
| Scanner.RegionSuggestionsSnoc | lambda_handler.py:155-167 | one more instance at the end, after instances whose samples were all fetched, adds its own suggestion (if any) after all the others |
| Scanner.RegionSuggestionsSnocRaised | lambda_handler.py:155-170 | one more instance at the end whose sample fetch raises adds nothing |
| Scanner.RegionSuggestionsPrefix | lambda_handler.py:155-167 | the suggestions of the first k instances are a prefix of the region's suggestions: later instances never disturb earlier ones |
| Scanner.RegionSuggestionsComplete | lambda_handler.py:155-167 | when the samples of instances 0..k were fetched and instance k gets suggestion s, s is in the region's list, right after the suggestions of the instances before k |
| Scanner.RegionStopsAtFailure | lambda_handler.py:155-170 | a sample fetch that raises at instance k leaves exactly the suggestions of the instances before k |
| Scanner.ScanRegion | lambda_handler.py:150-170 | a region whose listing raises gives nothing; every suggestion of a region is in that region, comes from an instance of its successful listing with that id and type, warmed up at the time of that listing, and proposes a confirmed different type |
| Scanner.ScanRegionComplete | lambda_handler.py:150-167 | when a region's listing succeeds and the samples of its warmed-up instances 0..k were fetched, the suggestion for the k-th one is among the region's suggestions |
| Scanner.ScanRegions | lambda_handler.py:147-170 | every suggestion comes from a scanned region whose listing succeeded, from an instance of that listing with that id and type that was warmed up at that region's own clock reading, and proposes a confirmed different type |
| Scanner.ScanRegionsAppend | lambda_handler.py:150-170 | scanning two lists of regions gives the concatenation of the two scans |
| Scanner.FailedHeadSkipped | lambda_handler.py:150-170 | a first region whose listing raises contributes nothing: the scan equals the scan of the remaining regions |
| Scanner.ScanRegionsSplit | lambda_handler.py:150-170 | the scan is the scan of the regions before i, then region i's own suggestions, then the scan of the regions after it |
| Scanner.FailedRegionSkipped | lambda_handler.py:150-170 | a region whose listing raises leaves the scan as if it were not in the list |
| Handler.ApplyChange | lambda_handler.py:94-111 | the change raises iff creating the region's client raises; otherwise it reports success iff the resize succeeds; both reports open with `Instance <id>`, the report alone tells success from failure, and a failure report carries the resize error |
| Handler.ReportsDiffer | lambda_handler.py:109-111 | the success report and the failure report of one payload differ for every error text |
| Handler.FirstActionValue | lambda_handler.py:123-124 | a value is found iff `actions` is present and non-empty and its first element has a `value`, and then it is that value |
| Handler.HandleCallback | lambda_handler.py:115-144 | an unreadable document gives 500; `{}` iff the document is read but carries no first action value; a change is attempted iff the response is 200, and then it is the payload parsed from that value, whose client exists; whenever the value parses and its client exists that change is attempted; the 200 message is the change report, which says whether the resize succeeded, and it is the only post; every other outcome posts nothing |
| Handler.UnparsableValueFails | lambda_handler.py:126-144 | a button value that does not parse gives a 500 response, base64-encoded or not, attempts nothing and posts nothing |
| Handler.ApprovedPayloadApplied | lambda_handler.py:115-140 | for a body, base64-encoded or not, that reads as `payload=<document>` whose first action carries the button value written for p, arriving form-encoded: when p's region client exists, p with the spaces and `+` of its fields removed is attempted and reported, and that is p iff its fields hold neither; otherwise 500 and no post |
| Handler.HandleScan | lambda_handler.py:146-186 | a region list that raises makes the invocation raise, with no post; otherwise the result lists the scan's suggestions and a post happens iff the URL is set, always to that URL: one "No instances need optimization." section when there are none, else the `2 + 3n` block list starting with the header |
| Handler.HandleEvent | lambda_handler.py:113-144 | the scan path is taken iff the event has no `body` key, and then the outcome is exactly the scan's; a `null` body gives 500, and a text body takes the callback path |

## Left out

- Provider calls: the calls themselves (region list, client creation, paginated instance listing, metric statistics, type lookup, stop/wait/modify/start) are not modelled. Only their answers or raised errors appear, as the parameters listed above.
- HTTP delivery of the webhook post: it is not modelled. Delivery errors are only logged, so the model keeps just what would be posted and where.
- Base64 decoding, `unquote` and the outer `json.loads` of the callback document: these are parameters. Only their success or failure and their results matter to the handler. How the outer document's own text fares under the form encoding is the document parser's concern.
- The form encoding: only its effect on the spaces of the button value is modelled (`Callback.FormSpaces`). Every other character it percent-encodes comes back unchanged from `unquote`, so a literal `+` in a field reaches the `+` removal as `+`.
- The event body: only an absent `body` key, a `null` body and a text body are modelled. A body of another JSON type is not.
- Environment variables: they are not read. The threshold and the webhook URL are inputs (`Handler.Config`).
- The sample window: the monitoring window (`MONITOR_DURATION`) and the one-minute period only shape which samples the provider returns. They live inside the samples function.
- Time: the clock is a parameter, in seconds: `now` for one region's listing and `clock(region)` for the scan. A region named twice in the region list would get one reading for both listings; the region list names each region once.
- Logging: `print` output has no counterpart.
- Metrics.Reduce: the reduction uses exact real arithmetic. It does not model floating-point rounding of the sum and the division.
- Sizing.LowerThreshold: the halved threshold is an exact real, with no floating-point rounding.
- Sizing.UpperThreshold: the threshold times 1.5 is an exact real, with no floating-point rounding.
- Scanner.InstanceSuggestion: `round(x, 2)` of the CPU figures is not modelled. The suggestion keeps the unrounded reduction, and the printing of the figures is the `showCpu` parameter.
- Payload.Encode: it writes the short escapes and `\u00XX` for the other control characters, as `json.dumps` does. It writes DEL and non-ASCII characters as they are, where `json.dumps` (with `ensure_ascii`) writes `\uXXXX` escapes, as surrogate pairs above U+FFFF.
- Payload.Decode: it accepts only the object `Encode` writes, with the four keys in that order and any JSON whitespace between tokens. `json.loads` followed by the key lookups of `apply_single_ec2_change` would also accept other key orders and extra keys. It refuses a `\u` escape of a surrogate code, so it refuses the surrogate pairs `json.loads` combines into one character.
- Handler.HandleCallback: `apply_single_ec2_change` reads only three keys and never `current_type`. The model's stricter parser requires all four.
- Handler.HandleCallback: a 500 response is modelled as `Failed` without its error text.
- Partial region results: the loop appends while it runs. When fetching samples raises part-way through a region, the suggestions already collected for that region's earlier instances stay, and the rest of the region is skipped. The model follows this (`Scanner.RegionSuggestions`, `Scanner.RegionStopsAtFailure`, `Scanner.RegionSuggestionsSnocRaised`). Only a failure of the listing itself leaves the region empty.
- Sizing.NoDownsizeAtBottom: also requires the load to be below the upper edge. With a negative threshold the upper edge lies below the lower one, and the upsize branch is taken first.
