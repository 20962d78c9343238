/**
 * The topic facade of mcp_kafka/kafka/topic.py, `KafkaTopic`, over an abstract cluster.
 *
 * `Admin` stands in for the Kafka admin client the facade talks to: the cluster is the
 * set of its topic names, and every request the facade sends is appended to a call log.
 * A broker's answer is opaque; `Reply(k)` is the answer to the `k`-th call of the log.
 * The facade's own logic is what is modelled: the `if_not_exists` short cut, the
 * parameter defaults, the responses it builds by itself on a dry run, and which requests
 * it sends (or does not send) to the cluster.
 */
module Topic {
  import opened Wrappers

  /** The kind of configuration resource a request names; the facade only names topics. */
  datatype ResourceType = TopicResource

  /** A topic to create: name, partitions, replication factor and optional topic configs. */
  datatype NewTopic = NewTopic(
    name: string,
    numPartitions: int,
    replicationFactor: int,
    topicConfigs: Option<map<string, string>>)

  /** A configuration resource of a describe or alter request. */
  datatype ConfigResource = ConfigResource(
    resourceType: ResourceType,
    name: string,
    configs: Option<map<string, string>>)

  /** A request sent to the cluster. */
  datatype AdminCall =
    | ListTopicsCall
    | DescribeTopicsCall(topics: seq<string>)
    | DescribeConfigsCall(resources: seq<ConfigResource>)
    | CreateTopicsCall(newTopics: seq<NewTopic>, validateOnly: bool)
    | DeleteTopicsCall(deleted: seq<string>)
    | AlterConfigsCall(altered: seq<ConfigResource>)

  /** The requests that change the cluster: a create that is not validate-only, a delete, an alter. */
  predicate Mutating(c: AdminCall)
  {
    (c.CreateTopicsCall? && !c.validateOnly) || c.DeleteTopicsCall? || c.AlterConfigsCall?
  }

  /** The cluster's answer to the call at position `callIndex` of the log. */
  datatype Reply = Reply(callIndex: nat)

  /** What a metadata request reports of one topic: its name and error code. */
  datatype TopicMetadata = TopicMetadata(topic: string, errorCode: int)

  /** Error code 3 of the Kafka protocol: UNKNOWN_TOPIC_OR_PARTITION. */
  const UnknownTopicOrPartition: int := 3

  /** The metadata a cluster holding `topics` reports for the requested names, in request order. */
  function MetadataFor(requested: seq<string>, topics: set<string>): (r: seq<TopicMetadata>)
    ensures |r| == |requested|
    ensures forall i :: 0 <= i < |r| ==> r[i].topic == requested[i] &&
                                         (r[i].errorCode == 0 <==> requested[i] in topics)
  {
    if requested == [] then []
    else [TopicMetadata(requested[0], if requested[0] in topics then 0 else UnknownTopicOrPartition)] +
         MetadataFor(requested[1..], topics)
  }

  /** The metadata lists `name` as a topic that exists. */
  predicate Listed(metadata: seq<TopicMetadata>, name: string)
  {
    exists i :: 0 <= i < |metadata| && metadata[i].topic == name && metadata[i].errorCode == 0
  }

  /** Asking the cluster about `name` alone tells whether the cluster holds it. */
  lemma MetadataShowsExistence(name: string, topics: set<string>)
    ensures Listed(MetadataFor([name], topics), name) <==> name in topics
  {
    var m := MetadataFor([name], topics);
    if name in topics {
      assert m[0].topic == name && m[0].errorCode == 0;
    }
  }

  /**
   * The cluster, seen through the admin client: its topic names and the log of the requests
   * it received.
   */
  class Admin {
    var topics: set<string>
    var log: seq<AdminCall>

    constructor (topics: set<string>)
      ensures this.topics == topics && log == []
    {
      this.topics := topics;
      log := [];
    }

    method ListTopics() returns (r: set<string>)
      modifies this
      ensures r == topics && topics == old(topics)
      ensures log == old(log) + [ListTopicsCall]
    {
      r := topics;
      log := log + [ListTopicsCall];
    }

    method DescribeTopics(requested: seq<string>) returns (r: seq<TopicMetadata>)
      modifies this
      ensures r == MetadataFor(requested, topics) && topics == old(topics)
      ensures log == old(log) + [DescribeTopicsCall(requested)]
    {
      r := MetadataFor(requested, topics);
      log := log + [DescribeTopicsCall(requested)];
    }

    /** One answer per broker group; every request here goes to one group. */
    method DescribeConfigs(resources: seq<ConfigResource>) returns (r: seq<Reply>)
      modifies this
      ensures r == [Reply(|old(log)|)] && topics == old(topics)
      ensures log == old(log) + [DescribeConfigsCall(resources)]
    {
      r := [Reply(|log|)];
      log := log + [DescribeConfigsCall(resources)];
    }

    method CreateTopics(newTopics: seq<NewTopic>, validateOnly: bool) returns (r: Reply)
      modifies this
      ensures r == Reply(|old(log)|)
      ensures topics == if validateOnly then old(topics)
                        else old(topics) + set t | t in newTopics :: t.name
      ensures log == old(log) + [CreateTopicsCall(newTopics, validateOnly)]
    {
      r := Reply(|log|);
      if !validateOnly {
        topics := topics + set t | t in newTopics :: t.name;
      }
      log := log + [CreateTopicsCall(newTopics, validateOnly)];
    }

    method DeleteTopics(deleted: seq<string>) returns (r: Reply)
      modifies this
      ensures r == Reply(|old(log)|)
      ensures topics == old(topics) - set t | t in deleted
      ensures log == old(log) + [DeleteTopicsCall(deleted)]
    {
      r := Reply(|log|);
      topics := topics - set t | t in deleted;
      log := log + [DeleteTopicsCall(deleted)];
    }

    method AlterConfigs(altered: seq<ConfigResource>) returns (r: Reply)
      modifies this
      ensures r == Reply(|old(log)|) && topics == old(topics)
      ensures log == old(log) + [AlterConfigsCall(altered)]
    {
      r := Reply(|log|);
      log := log + [AlterConfigsCall(altered)];
    }
  }

  // ---------------------------------------------------------------------------
  // Responses the facade builds itself on a dry run

  /** The `(topic, error code)` pairs of a delete response. */
  datatype DeleteTopicsResponse = DeleteTopicsResponse(throttleTimeMs: int, topicErrorCodes: seq<(string, int)>)

  /** One resource of an alter response: error code, error message, resource type and name. */
  datatype AlterResult = AlterResult(errorCode: int, errorMessage: Option<string>, resourceType: ResourceType, name: string)

  datatype AlterConfigsResponse = AlterConfigsResponse(throttleTimeMs: int, resources: seq<AlterResult>)

  /** A `(t, 0)` pair for every topic `t`, in the given order. */
  function NoErrors(topics: seq<string>): (r: seq<(string, int)>)
    ensures |r| == |topics|
    ensures forall i :: 0 <= i < |r| ==> r[i] == (topics[i], 0)
  {
    if topics == [] then [] else [(topics[0], 0)] + NoErrors(topics[1..])
  }

  /** The delete response of a dry run: no throttling and no error for any requested topic. */
  function DryRunDeleteResponse(topics: seq<string>): (r: DeleteTopicsResponse)
    ensures r.throttleTimeMs == 0 && |r.topicErrorCodes| == |topics|
    ensures forall i :: 0 <= i < |topics| ==> r.topicErrorCodes[i] == (topics[i], 0)
  {
    DeleteTopicsResponse(0, NoErrors(topics))
  }

  /** The message of a dry-run alter of a topic that does not exist. */
  function MissingTopicMessage(name: string): string
  {
    "The topic '" + name + "' does not exist."
  }

  /**
   * The alter response of a dry run for topic `name`: one TOPIC resource named `name`,
   * with error code 3 and a message when the topic does not exist, and code 0 with no
   * message when it does.
   */
  function DryRunAlterResponse(name: string, present: bool): (r: AlterConfigsResponse)
    ensures r.throttleTimeMs == 0 && |r.resources| == 1
    ensures r.resources[0].resourceType == TopicResource && r.resources[0].name == name
    ensures r.resources[0].errorCode == 0 <==> present
    ensures r.resources[0].errorMessage.None? <==> present
    ensures !present ==> r.resources[0].errorCode == UnknownTopicOrPartition &&
                         r.resources[0].errorMessage == Some(MissingTopicMessage(name))
  {
    if !present then
      AlterConfigsResponse(0, [AlterResult(UnknownTopicOrPartition, Some(MissingTopicMessage(name)), TopicResource, name)])
    else
      AlterConfigsResponse(0, [AlterResult(0, None, TopicResource, name)])
  }

  // ---------------------------------------------------------------------------
  // The existence test of the dry-run alter, as written

  /** A Python value the existence test compares: a string, or a topic metadata dictionary. */
  datatype PyValue = PyStr(s: string) | PyDict(meta: TopicMetadata)

  /** Python's `x in xs` on a list: some element equals `x` (a string never equals a dictionary). */
  predicate PyIn(x: PyValue, xs: seq<PyValue>)
  {
    exists i :: 0 <= i < |xs| && xs[i] == x
  }

  /**
   * The dry-run alter as written: the topic name is looked for among the metadata
   * dictionaries the describe request returns.
   */
  function DryRunAlterAsWritten(name: string, metadata: seq<TopicMetadata>): AlterConfigsResponse
  {
    var described := seq(|metadata|, i requires 0 <= i < |metadata| => PyDict(metadata[i]));
    DryRunAlterResponse(name, PyIn(PyStr(name), described))
  }

  /**
   * As written, the dry-run alter reports every topic as missing, even one the cluster
   * holds: a name is never equal to a metadata dictionary.
   */
  lemma AsWrittenReportsExistingTopicMissing(name: string, topics: set<string>)
    requires name in topics
    ensures DryRunAlterAsWritten(name, MetadataFor([name], topics)).resources[0].errorCode == UnknownTopicOrPartition
    ensures DryRunAlterAsWritten(name, MetadataFor([name], topics)) != DryRunAlterResponse(name, true)
  {
    var metadata := MetadataFor([name], topics);
    var described := seq(|metadata|, i requires 0 <= i < |metadata| => PyDict(metadata[i]));
    assert !PyIn(PyStr(name), described);
  }

  // ---------------------------------------------------------------------------
  // The facade

  /** What `create_topic` returns: `{}` when it skipped an existing topic, else the cluster's reply. */
  datatype CreateOutcome = Skipped | Submitted(reply: Reply)

  /** What a delete or alter returns: a response built on a dry run, or the cluster's reply. */
  datatype Outcome<R> = DryRun(response: R) | Sent(reply: Reply)

  class KafkaTopic {
    const admin: Admin

    constructor (admin: Admin)
      ensures this.admin == admin
    {
      this.admin := admin;
    }

    /**
     * `create_topic`: with `if_not_exists`, the topic names are listed first and an
     * existing name is skipped with nothing created. Otherwise exactly one create request
     * is sent, carrying one topic with the given name, partitions, replication factor and
     * configs, validate-only exactly on a dry run.
     */
    method CreateTopic(name: string, numPartitions: int := 3, replicationFactor: int := 3,
                       ifNotExists: bool := false, configs: Option<map<string, string>> := None,
                       dryRun: bool := false)
      returns (r: CreateOutcome)
      modifies admin
      ensures dryRun ==> forall k :: |old(admin.log)| <= k < |admin.log| ==> !Mutating(admin.log[k])
      ensures var listed := if ifNotExists then [ListTopicsCall] else [];
              var request := CreateTopicsCall([NewTopic(name, numPartitions, replicationFactor, configs)], dryRun);
              if ifNotExists && name in old(admin.topics) then
                r == Skipped && admin.topics == old(admin.topics) && admin.log == old(admin.log) + listed
              else
                r == Submitted(Reply(|old(admin.log)| + |listed|)) &&
                admin.log == old(admin.log) + listed + [request] &&
                admin.topics == if dryRun then old(admin.topics) else old(admin.topics) + {name}
    {
      if ifNotExists {
        var existing := admin.ListTopics();
        if name in existing {
          return Skipped;
        }
      }
      var topic := NewTopic(name, numPartitions, replicationFactor, configs);
      var reply := admin.CreateTopics([topic], dryRun);
      assert (set t | t in [topic] :: t.name) == {name};
      r := Submitted(reply);
    }

    /** `list_topics`: the cluster's topic names. */
    method ListTopics() returns (r: set<string>)
      modifies admin
      ensures r == old(admin.topics) && admin.topics == old(admin.topics)
      ensures admin.log == old(admin.log) + [ListTopicsCall]
    {
      r := admin.ListTopics();
    }

    /** `describe_topics`: the metadata of the requested topics. */
    method DescribeTopics(topics: seq<string>) returns (r: seq<TopicMetadata>)
      modifies admin
      ensures r == MetadataFor(topics, old(admin.topics)) && admin.topics == old(admin.topics)
      ensures admin.log == old(admin.log) + [DescribeTopicsCall(topics)]
    {
      r := admin.DescribeTopics(topics);
    }

    /** `describe_topic_config`: one request naming the single TOPIC resource; its first answer. */
    method DescribeTopicConfig(topic: string) returns (r: Reply)
      modifies admin
      ensures admin.topics == old(admin.topics)
      ensures admin.log == old(admin.log) + [DescribeConfigsCall([ConfigResource(TopicResource, topic, None)])]
      ensures r == Reply(|old(admin.log)|)
    {
      var response := admin.DescribeConfigs([ConfigResource(TopicResource, topic, None)]);
      r := response[0];
    }

    /**
     * `delete_topics`: a dry run sends nothing and answers `(t, 0)` for every topic, in
     * order; otherwise the list goes unchanged to one delete request.
     */
    method DeleteTopics(topics: seq<string>, dryRun: bool := false) returns (r: Outcome<DeleteTopicsResponse>)
      modifies admin
      ensures dryRun ==> forall k :: |old(admin.log)| <= k < |admin.log| ==> !Mutating(admin.log[k])
      ensures dryRun ==> r == DryRun(DryRunDeleteResponse(topics)) &&
                         admin.topics == old(admin.topics) && admin.log == old(admin.log)
      ensures !dryRun ==> r == Sent(Reply(|old(admin.log)|)) &&
                          admin.log == old(admin.log) + [DeleteTopicsCall(topics)] &&
                          admin.topics == old(admin.topics) - set t | t in topics
    {
      if dryRun {
        return DryRun(DryRunDeleteResponse(topics));
      }
      var reply := admin.DeleteTopics(topics);
      r := Sent(reply);
    }

    /**
     * `alter_topic`: a dry run only describes the topic and answers for it by itself, code
     * 3 with a message when the cluster does not hold it and code 0 when it does; nothing
     * is altered. Otherwise one alter request carries the single TOPIC resource `name`
     * with `configs`.
     */
    method AlterTopic(name: string, configs: map<string, string>, dryRun: bool := false)
      returns (r: Outcome<AlterConfigsResponse>)
      modifies admin
      ensures admin.topics == old(admin.topics)
      ensures dryRun ==> forall k :: |old(admin.log)| <= k < |admin.log| ==> !Mutating(admin.log[k])
      ensures dryRun ==> r == DryRun(DryRunAlterResponse(name, name in old(admin.topics))) &&
                         admin.log == old(admin.log) + [DescribeTopicsCall([name])]
      ensures !dryRun ==> r == Sent(Reply(|old(admin.log)|)) &&
                          admin.log == old(admin.log) + [AlterConfigsCall([ConfigResource(TopicResource, name, Some(configs))])]
    {
      if dryRun {
        var metadata := admin.DescribeTopics([name]);
        MetadataShowsExistence(name, old(admin.topics));
        if !Listed(metadata, name) {
          return DryRun(DryRunAlterResponse(name, false));
        }
        return DryRun(DryRunAlterResponse(name, true));
      }
      var resource := ConfigResource(TopicResource, name, Some(configs));
      var reply := admin.AlterConfigs([resource]);
      r := Sent(reply);
    }
  }
}
