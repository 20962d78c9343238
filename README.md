# mcp-kafka core, modelled in Dafny

mcp-kafka is a Model Context Protocol server that exposes Kafka cluster administration as
tools. This project models the three pieces of it that hold logic of their own and proves
properties about them:

- `string_util.dfy` (module `StringUtil`): `parse_value`, the scanner that pulls a quoted
  `key="value"` out of a JAAS-style credential line. `ParseValue` is an imperative method
  with two loops, proved equal to the specification function `Extracted`. Lemmas about
  `Extracted` cover its three failure cases, where the value starts and ends, how escaped
  quotes are folded (`Unescape`), a round trip through `Escape`, the length bound, and the
  fact that only the first occurrence of the key counts.
- `core.dfy` (module `McpCore`): the `Core` cluster registry. It covers the cluster
  configuration records and their defaults, key validation and the merge with the default
  table, the `use_sse`/`port` getters, `clusters` and `get_cluster_config` with their
  `KeyError` paths (as `Result` failures), the per-cluster admin-client cache, and `close`.
  An admin client is an opaque handle `AdminClient(serial, settings)`. `built` counts how
  many were constructed, and `closed` records the clients `close()` was called on, in order.
  A cluster definition that leaves its `ssl` block out keeps the unvalidated `{}` default;
  the registry follows the code as written there (see "## Findings").
- `topic.dfy` (module `Topic`): the `KafkaTopic` facade over an abstract Kafka admin
  (`Admin`). That admin holds the cluster's topic names and a log of every call made to it,
  so "no remote mutation on a dry run" is a statement about the log.
- `wrappers.dfy` (module `Wrappers`): `Option` and `Result`.

## Model

| member | source | states |
|---|---|---|
| StringUtil.Extracted | mcp_kafka/utils/string.py:1-35 | the reference definition of `parse_value`: `''` when no opening quote is found, otherwise the scan from the character after it; `ParseValue` is proved equal to it and the lemmas below characterise it |
| StringUtil.Scan | mcp_kafka/utils/string.py:24-33 | the value loop as a recursion on the index; it never drops a character collected earlier (its length never falls below the collected prefix) |
| StringUtil.IsSpace | mcp_kafka/utils/string.py:13 | `str.isspace` on one character; no default quote, `=` or backslash is white space, so the skip never passes an opening quote |
| StringUtil.ParseValue | mcp_kafka/utils/string.py:1-35 | the method's two loops compute exactly `Extracted(key, text, quotes)`; the default quotes are `"` and `'` |
| StringUtil.CollectQuoted | mcp_kafka/utils/string.py:22-35 | the value loop returns exactly `Scan` from the character after the opening quote |
| StringUtil.FindFrom | mcp_kafka/utils/string.py:2 | a found position lies at or after the start and the key fits inside the text there |
| StringUtil.FindFromIsFirst | mcp_kafka/utils/string.py:2-4 | `str.find`: a found position is an occurrence with none before it from the start; not found means no occurrence at or after the start |
| StringUtil.SkipSpaces | mcp_kafka/utils/string.py:12-14 | the whitespace loop ends between the start and the end of the text |
| StringUtil.SkipSpacesIsFirstNonSpace | mcp_kafka/utils/string.py:12-14 | every skipped character is whitespace, and the loop stops on a non-space or at the end |
| StringUtil.QuoteAfter | mcp_kafka/utils/string.py:12-18 | a found opening quote lies after the `=`, inside the text, and is one of the quote characters |
| StringUtil.OpeningQuote | mcp_kafka/utils/string.py:2-18 | a found opening quote is inside the text and is one of the quote characters |
| StringUtil.KeyAbsent | mcp_kafka/utils/string.py:2-4 | when the key occurs nowhere in the text, the result is empty |
| StringUtil.NoEqualsAfterKey | mcp_kafka/utils/string.py:7-9 | when no `=` follows the end of the first occurrence of the key, the result is empty |
| StringUtil.EqualsSignAt | mcp_kafka/utils/string.py:7 | finding `"="` at a position means exactly that the character there is `=` |
| StringUtil.OpeningQuoteAt | mcp_kafka/utils/string.py:7-18 | with the first key, the first `=` after it and the first non-space after that, the opening quote is that character if it is a quote; if the text ends there or it is not a quote, the result is empty |
| StringUtil.ScanLength | mcp_kafka/utils/string.py:24-33 | the value loop adds at most one character per character it reads |
| StringUtil.ExtractedBounds | mcp_kafka/utils/string.py:16-35 | no opening quote gives an empty result; otherwise the result is no longer than the text after the opening quote |
| StringUtil.ClosingFromIsFirst | mcp_kafka/utils/string.py:24-30 | the value ends at the first quote whose accumulated value does not end in a backslash, or at the end of the text |
| StringUtil.UnescapeFold | mcp_kafka/utils/string.py:26-28 | a quote after an accumulated backslash replaces that backslash with the quote |
| StringUtil.ScanUnescapes | mcp_kafka/utils/string.py:24-33 | from any point before the closing quote, the loop produces the unescaped segment up to the closing quote |
| StringUtil.ScanAtClosing | mcp_kafka/utils/string.py:26-30 | at the closing quote, the loop stops and returns what it accumulated |
| StringUtil.ExtractedIsUnescapedSegment | mcp_kafka/utils/string.py:20-35 | the result is the text between the opening quote and the first unescaped matching quote (or the end of the text), with escaped quotes folded |
| StringUtil.QuoteOnlyThroughFolding | mcp_kafka/utils/string.py:21-35 | the opening quote character appears in the result only if the value itself, between the opening and the closing quote, holds a backslash followed by that quote |
| StringUtil.EscapedQuoteInSegment | mcp_kafka/utils/string.py:26-28 | a quote in an unescaped segment comes from a backslash-quote pair inside that segment, before its closing quote |
| StringUtil.ScanEscaped | mcp_kafka/utils/string.py:24-33 | the loop reads back an escaped value followed by its closing quote as the value itself |
| StringUtil.OpeningQuoteAfterKey | mcp_kafka/utils/string.py:2-18 | for a text that starts with `key=`, whitespace and a quote, the opening quote is found at that position |
| StringUtil.RoundTrip | mcp_kafka/utils/string.py:1-35 | `key=` + whitespace + quote + `Escape(v)` + quote + anything parses back to `v`, for any `v` not ending in a backslash |
| StringUtil.RoundTripPlain | mcp_kafka/utils/string.py:20-35 | `key="v"` parses back to `v` for any `v` with neither `"` nor a backslash |
| StringUtil.PrefixWithoutKey | mcp_kafka/utils/string.py:2 | text in front that holds no occurrence of the key does not change the result: only the first occurrence counts |
| StringUtil.KeyInsideLongerToken | mcp_kafka/utils/string.py:2 | the key found inside a longer token (`myuser="a" user="b"` for `user`) is the one used, giving `a` |
| McpCore.DeclaredCluster | mcp_kafka/core.py:40-45 | a definition giving only its servers: `PLAINTEXT`, null SASL fields, and the `ssl` block left at its unvalidated `{}` default |
| McpCore.Truthy | mcp_kafka/core.py:98 | Python truthiness: a value is falsy exactly when it is false, zero, empty text, null or an empty table |
| McpCore.DefaultsLoadNoClusters | mcp_kafka/core.py:85-89 | the default table holds exactly `use_sse=False`, `port=8888` and a falsy `clusters_config_file`, so by default no clusters are loaded |
| McpCore.KafkaConfig | mcp_kafka/core.py:199-208 | the `kafka_config` dictionary as written: settings come out exactly when the `ssl` block was given, and then they are the intended `SettingsFor` |
| McpCore.SettingsFor | mcp_kafka/core.py:199-208 | the intended settings: top-level fields copied, SSL paths from the nested block, no paths for a block left out |
| McpCore.SettingsKeepDefinition | mcp_kafka/core.py:199-208 | the admin-client settings copy every field of the cluster definition: the definition is recovered from them, and different definitions give different settings |
| McpCore.DeclaredClusterNotBuilt | mcp_kafka/core.py:41 | as written, a cluster declared with only its servers yields no settings, because reading `ssl.ca_file` from the `{}` default raises |
| McpCore.DeclaredClusterSettings | mcp_kafka/core.py:40-45 | as intended, a cluster declared with only its servers gives PLAINTEXT settings with no SASL fields and no SSL files, the same as with an explicitly empty `ssl` block |
| McpCore.ClientsInOrderOnce | mcp_kafka/core.py:215-217 | walking distinct cached names visits each cached client once if its name is walked, otherwise never |
| McpCore.CloseCoversCache | mcp_kafka/core.py:213-219 | for a valid registry, close's walk calls close once on every cached client, on nothing else, and as many times as there are clients |
| McpCore.Core.Create | mcp_kafka/core.py:91-102 | a key outside `use_sse`, `port`, `clusters_config_file` fails with exactly those keys; otherwise the config is the defaults overridden by the given keys, the clusters are loaded iff the file setting is truthy, and the cache starts empty |
| McpCore.Core.Empty | mcp_kafka/core.py:96 | a new registry holds the given config, an empty cache and no constructed or closed clients |
| McpCore.Core.Update | mcp_kafka/core.py:97 | `dict.update`: given keys take the given values, the others keep theirs, nothing else changes |
| McpCore.Core.LoadClusters | mcp_kafka/core.py:98-100 | the parsed cluster table is stored under `clusters` and becomes the definitions |
| McpCore.Core.UseSse | mcp_kafka/core.py:147-154 | returns the stored `use_sse` value, which is always present |
| McpCore.Core.Port | mcp_kafka/core.py:156-163 | returns the stored `port` value, which is always present |
| McpCore.Core.Clusters | mcp_kafka/core.py:165-172 | a name is listed iff its configuration can be fetched; nothing is listed when no clusters are loaded |
| McpCore.Core.GetClusterConfig | mcp_kafka/core.py:174-189 | fails with "no clusters" when none are loaded, with "not found" for an absent name, and otherwise returns the stored definition unchanged |
| McpCore.Core.KafkaAdminClient | mcp_kafka/core.py:191-211 | a cached name returns the cached client and builds nothing; an unknown name fails as `get_cluster_config` does and changes nothing; a definition whose `ssl` block was left out fails (`AttributeError`) and changes nothing; any other miss builds exactly one client from the definition's settings and adds it under that name, leaving every other entry as it was |
| McpCore.Core.Close | mcp_kafka/core.py:213-219 | calls close on each cached client once, in insertion order, then empties the cache; the config and cluster definitions are untouched |
| Topic.MetadataShowsExistence | mcp_kafka/kafka/topic.py:88-91 | the describe result for one name lists that name without error iff the cluster holds the topic |
| Topic.NoErrors | mcp_kafka/kafka/topic.py:76 | one `(t, 0)` per topic, in the same order |
| Topic.DryRunDeleteResponse | mcp_kafka/kafka/topic.py:73-78 | throttle time 0 and one `(t, 0)` entry per requested topic, same order and length |
| Topic.DryRunAlterResponse | mcp_kafka/kafka/topic.py:91-101 | one TOPIC resource for the name: code 3 with "The topic '<name>' does not exist." when the topic is missing, otherwise code 0 and no message |
| Topic.DryRunAlterAsWritten | mcp_kafka/kafka/topic.py:89-96 | the dry-run alter as written: the name is looked for among the metadata records the describe call returns |
| Topic.AsWrittenReportsExistingTopicMissing | mcp_kafka/kafka/topic.py:89-96 | as written, a dry-run alter of an existing topic reports code 3, unlike the intended response |
| Topic.KafkaTopic.constructor | mcp_kafka/kafka/topic.py:18-19 | the facade works over the given admin |
| Topic.KafkaTopic.CreateTopic | mcp_kafka/kafka/topic.py:21-49 | with `if_not_exists` and an existing name, only a list call is made and nothing is created; otherwise exactly one create call with one topic carrying the name, partitions, replication factor and configs, `validate_only` equal to the dry-run flag; a dry run makes no mutating call; defaults 3, 3, false, none, false |
| Topic.KafkaTopic.ListTopics | mcp_kafka/kafka/topic.py:51-53 | returns the cluster's topics through one list call and changes nothing |
| Topic.KafkaTopic.DescribeTopics | mcp_kafka/kafka/topic.py:55-57 | forwards the names to one describe call and returns its metadata |
| Topic.KafkaTopic.DescribeTopicConfig | mcp_kafka/kafka/topic.py:59-69 | requests exactly one TOPIC resource for the topic and returns the first element of the reply |
| Topic.KafkaTopic.DeleteTopics | mcp_kafka/kafka/topic.py:71-84 | a dry run makes no call at all and returns the synthesised `(t, 0)` response; otherwise forwards the list unchanged to one delete call |
| Topic.KafkaTopic.AlterTopic | mcp_kafka/kafka/topic.py:86-113 | a dry run makes only a describe call and answers from whether the topic exists (code 3 and a message, or code 0); otherwise one alter call with one TOPIC resource for the name carrying the configs; topics never change |

## Left out

- The server's transport selection, logging setup and lifespan hook (`mcp_kafka/server.py`) and the tool handlers (`mcp_kafka/tools.py`): I/O and adapter plumbing. Shutdown calling `Core.close` is covered by `Core.Close`.
- `mcp_kafka/kafka/cluster.py` and `mcp_kafka/kafka/consumer.py`: pass-throughs to kafka-python's admin client, which is not part of this model.
- `Core.from_flags` and `Core._parse_config_file`: argument parsing, file reading and YAML. The parsed cluster table is a parameter of `Core.Create`. The code returns a `ClusterConfig` from the parser (core.py:145) but reads `.clusters` from it (core.py:100), which only `KafkaClustersConfig` has. The model stores the cluster table the file is meant to hold and does not reproduce that mismatch.
- The real admin client and the network: a client is an opaque handle with a construction serial, and the cluster is a topic set with a call log. Replies the cluster sends back are tags (`Reply`) naming the call that produced them. Their contents are not modelled, except for describe-topics metadata, which the dry-run alter depends on.
- kafka-python's `KafkaAdminClient` behaviour beyond the topic set: the `Admin` class stands in for it. Creation adds names unless `validate_only`, deletion removes them, and configuration calls change no topic.
- How the facade reaches its admin: topic.py uses `kafka_admin_client` as an attribute, while core.py defines it as a method taking a cluster name (core.py:191). The facade is modelled over an explicit `Admin`.
- McpCore.Core.Clusters: returns a set, so the key order of the `dict_keys` view is not modelled.
- McpCore.Core.GetClusterConfig: the `KeyError` message texts are not modelled, only which of the two errors is raised.
- Topic.KafkaTopic.ListTopics: returns a set, so the order of the broker's list is not modelled.
- Concurrency: the admin-client cache has no lock (core.py:197-209). The model is sequential and makes no thread-safety claim.
- Failure while closing a client: `close` has no exception handling (core.py:215-217), so one failing client stops the loop and the cache is not cleared. The model follows the code, where every close succeeds, and does not model failure tolerance.
- Logging (loguru) everywhere: it has no effect on results.
- Configuration values: only booleans, numbers, text, null and the cluster table are represented (`ConfigValue`). Truthiness of `clusters_config_file` follows Python's rules for those kinds.
- StringUtil.ExtractedIsUnescapedSegment: proved only when the opening quote is not a backslash; with a backslash as quote character, folding and closing interact differently and the segment characterisation is not stated.
- StringUtil.QuoteOnlyThroughFolding: proved only when the opening quote is not a backslash, for the same reason.
- StringUtil.RoundTrip: proved for quote characters other than backslash and for values not ending in a backslash. A value ending in a backslash would fold the closing quote into the value, so it cannot round-trip.
- `str.isspace` is modelled by listing, by code point, the characters it accepts (`IsSpace`). Python's `in` on the quotes tuple is membership in a sequence of characters.

## Findings

| source | as written | input that shows it | evidently intended | confidence | as-written member | corrected member |
|---|---|---|---|---|---|---|
| mcp_kafka/kafka/topic.py:89-96 | the dry-run alter tests `name not in existing_topics`, where `existing_topics` is the list of metadata dictionaries `describe_topics` returns, so a name never equals an element | a dry-run alter of a topic the cluster holds returns code 3 and "The topic '<name>' does not exist." | code 0 with no message when the topic exists, code 3 only when it is missing | medium, not executed: rests on kafka-python's `describe_topics` returning a list of dictionaries | Topic.AsWrittenReportsExistingTopicMissing | Topic.KafkaTopic.AlterTopic |
| mcp_kafka/core.py:41 | `ssl` defaults to `{}`, which pydantic does not validate, so a definition without an `ssl` block holds a plain dictionary and `config.ssl.ca_file` (core.py:205) raises `AttributeError` | cluster table `{prod: {bootstrap_servers: ["b:9092"]}}`, then `kafka_admin_client("prod")`: no client is built | the admin client is built with no SSL files, as for an empty `ssl` block | medium, not executed: rests on pydantic leaving defaults unvalidated | McpCore.DeclaredClusterNotBuilt | McpCore.DeclaredClusterSettings |
