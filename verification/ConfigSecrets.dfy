/**
 The secrets an agent's config carries: masked on the way out, sealed at rest. The
 masking walker, the sealing walker and the migration's frozen copy of it, and that
 all three reach the places of one shape.
 */
module ConfigSecrets {
  import opened Documents

  const MASK := Str("***")

  /** `out[key]` replaced where the key is there. */
  function Over(fields: map<string, Json>, key: string, g: Json -> Json): map<string, Json> {
    if key in fields then fields[key := g(fields[key])] else fields
  }

  /** What becomes of each block of a config. */
  datatype Blocks = Blocks(
    llm: Json -> Json,
    aws: Json -> Json,
    serverUrl: Json -> Json,
    tools: Json -> Json,
    mcpServers: Json -> Json)

  /** A config's five blocks, one after the other. */
  function FiveBlocks(fields: map<string, Json>, blocks: Blocks): map<string, Json>
  {
    var llm := Over(fields, "llm", blocks.llm);
    var aws := Over(llm, "aws", blocks.aws);
    var url := Over(aws, "server_url", blocks.serverUrl);
    var tools := Over(url, "tools", blocks.tools);
    Over(tools, "mcp_servers", blocks.mcpServers)
  }

  // ----- masking

  function MaskField(v: Json): Json {
    if v.Null? then v else MASK
  }

  function MaskLlm(llm: Json): Json
    requires llm.Obj?
    decreases llm
  {
    var out := Over(llm.fields, "api_key", MaskField);
    if "failover" in llm.fields && llm.fields["failover"].Arr? then
      var items := llm.fields["failover"].items;
      Obj(out["failover" := Arr(seq(|items|, i requires 0 <= i < |items| =>
        if items[i].Obj? then MaskLlm(items[i]) else items[i]))])
    else Obj(out)
  }

  function MaskAws(aws: Json): Json {
    if !aws.Obj? then aws
    else
      var masked := map k | k in {"secret_access_key", "session_token"} && k in aws.fields :: MaskField(aws.fields[k]);
      if masked == map[] then aws else Obj(aws.fields + masked)
  }

  function MaskUnder(key: string, block: Json): Json {
    if block.Obj? && key in block.fields && !block.fields[key].Null? then Obj(block.fields[key := MASK]) else block
  }

  function MaskEntries(v: Json): Json {
    if v.Obj? && v.fields != map[] then Obj(map k | k in v.fields :: MASK) else v
  }

  function MaskMcpServer(server: Json): Json {
    if !server.Obj? then server
    else Obj(Over(Over(server.fields, "headers", MaskEntries), "env", MaskEntries))
  }

  function OnItems(v: Json, g: Json -> Json): Json {
    if v.Arr? then Arr(seq(|v.items|, i requires 0 <= i < |v.items| => g(v.items[i]))) else v
  }

  const MASKED := Blocks(
    (x: Json) => if x.Obj? then MaskLlm(x) else x,
    MaskAws,
    (x: Json) => MaskUnder("secret", x),
    (x: Json) => OnItems(x, (tool: Json) => MaskUnder("webhook_secret", tool)),
    (x: Json) => OnItems(x, MaskMcpServer))

  /** `sanitize_config`. */
  function SanitizeConfig(config: Json): Json {
    if config.Obj? then Obj(FiveBlocks(config.fields, MASKED)) else config
  }

  // ----- mapping

  type Convert = string -> string

  /** Only a non-empty string is a secret. */
  function MapValue(v: Json, fn: Convert): Json {
    if v.Str? && v.s != "" then Str(fn(v.s)) else v
  }

  function MapKeys(block: Json, keys: set<string>, fn: Convert): Json
    requires block.Obj?
  {
    Obj(block.fields + map k | k in keys && k in block.fields :: MapValue(block.fields[k], fn))
  }

  function MapLlm(llm: Json, fn: Convert): Json
    requires llm.Obj?
    decreases llm
  {
    var out := MapKeys(llm, {"api_key"}, fn).fields;
    if "failover" in llm.fields && llm.fields["failover"].Arr? then
      var items := llm.fields["failover"].items;
      Obj(out["failover" := Arr(seq(|items|, i requires 0 <= i < |items| =>
        if items[i].Obj? then MapLlm(items[i], fn) else items[i]))])
    else Obj(out)
  }

  function MapUnder(keys: set<string>, block: Json, fn: Convert): Json {
    if block.Obj? then MapKeys(block, keys, fn) else block
  }

  function MapEntries(v: Json, fn: Convert): Json {
    if v.Obj? then Obj(map k | k in v.fields :: MapValue(v.fields[k], fn)) else v
  }

  function MapMcpServer(server: Json, fn: Convert): Json {
    if !server.Obj? then server
    else Obj(Over(Over(server.fields, "headers", (x: Json) => MapEntries(x, fn)), "env", (x: Json) => MapEntries(x, fn)))
  }

  function Mapped(fn: Convert): Blocks {
    Blocks(
      (x: Json) => if x.Obj? then MapLlm(x, fn) else x,
      (x: Json) => MapUnder({"access_key_id", "secret_access_key", "session_token"}, x, fn),
      (x: Json) => MapUnder({"secret"}, x, fn),
      (x: Json) => OnItems(x, (tool: Json) => MapUnder({"webhook_secret"}, tool, fn)),
      (x: Json) => OnItems(x, (server: Json) => MapMcpServer(server, fn)))
  }

  /** `map_secrets`. */
  function MapSecrets(config: Json, fn: Convert): Json {
    if config.Obj? then Obj(FiveBlocks(config.fields, Mapped(fn))) else config
  }

  // ----- the migration's frozen copy

  function FrozenLlm(llm: Json, fn: Convert): Json
    requires llm.Obj?
    decreases llm
  {
    var out := if "api_key" in llm.fields then llm.fields["api_key" := MapValue(llm.fields["api_key"], fn)] else llm.fields;
    if "failover" in llm.fields && llm.fields["failover"].Arr? then
      var items := llm.fields["failover"].items;
      Obj(out["failover" := Arr(seq(|items|, i requires 0 <= i < |items| =>
        if items[i].Obj? then FrozenLlm(items[i], fn) else items[i]))])
    else Obj(out)
  }

  function FrozenUnder(key: string, block: Json, fn: Convert): Json {
    if block.Obj? && key in block.fields then Obj(block.fields[key := MapValue(block.fields[key], fn)]) else block
  }

  function FrozenAws(aws: Json, fn: Convert): Json
    requires aws.Obj?
  {
    Obj(aws.fields + map k | k in {"access_key_id", "secret_access_key", "session_token"} && k in aws.fields ::
      MapValue(aws.fields[k], fn))
  }

  function FrozenMcpServer(server: Json, fn: Convert): Json {
    if !server.Obj? then server
    else
      Obj(server.fields + map k | k in {"headers", "env"} && k in server.fields :: MapEntries(server.fields[k], fn))
  }

  function Frozen(fn: Convert): Blocks {
    Blocks(
      (x: Json) => if x.Obj? then FrozenLlm(x, fn) else x,
      (x: Json) => if x.Obj? then FrozenAws(x, fn) else x,
      (x: Json) => FrozenUnder("secret", x, fn),
      (x: Json) => OnItems(x, (tool: Json) => FrozenUnder("webhook_secret", tool, fn)),
      (x: Json) => OnItems(x, (server: Json) => FrozenMcpServer(server, fn)))
  }

  /** The migration's `map_config`. */
  function MapConfig(config: Json, fn: Convert): Json {
    if config.Obj? then Obj(FiveBlocks(config.fields, Frozen(fn))) else config
  }

  // ----- one shape for all three

  const AWS := At(map["access_key_id" := Leaf(KeyId), "secret_access_key" := Leaf(Secret), "session_token" := Leaf(Secret)])
  const SERVER_URL := At(map["secret" := Leaf(Secret)])
  const TOOLS := Each(At(map["webhook_secret" := Leaf(Secret)]))
  const MCP_SERVER := At(map["headers" := Every(Leaf(Entry)), "env" := Every(Leaf(Entry))])
  const CONFIG :=
    At(map["llm" := Llm, "aws" := AWS, "server_url" := SERVER_URL, "tools" := TOOLS, "mcp_servers" := Each(MCP_SERVER)])

  /** A header's or variable's value is masked whatever it is; any other secret unless
      it is absent; the id of a key not at all. */
  function Masking(kind: Kind, v: Json): Json {
    match kind
    case Secret => MaskField(v)
    case Entry => MASK
    case KeyId => v
  }

  function Mapping(fn: Convert): (Kind, Json) -> Json {
    (kind: Kind, v: Json) => MapValue(v, fn)
  }

  lemma ItemsWalk(v: Json, g: Json -> Json, item: Shape, h: (Kind, Json) -> Json)
    requires forall x :: g(x) == Walk(item, x, h)
    ensures OnItems(v, g) == Walk(Each(item), v, h)
  {
    if v.Arr? {
      assert OnItems(v, g).items == Walk(Each(item), v, h).items;
    }
  }

  /** What a walk makes of one field of a block. */
  function FieldWalk(at: map<string, Shape>, k: string, v: Json, h: (Kind, Json) -> Json): Json {
    if k in at then Walk(at[k], v, h) else v
  }

  /** A block is walked field by field. */
  lemma BlockWalks(at: map<string, Shape>, block: Json, fields: map<string, Json>, h: (Kind, Json) -> Json)
    requires block.Obj? && forall k :: k in fields <==> k in block.fields
    requires forall k :: k in fields ==> fields[k] == FieldWalk(at, k, block.fields[k], h)
    ensures Obj(fields) == Walk(At(at), block, h)
  {
    assert fields == Walk(At(at), block, h).fields;
  }

  lemma LlmWalks(llm: Json, fields: map<string, Json>, h: (Kind, Json) -> Json)
    requires llm.Obj? && forall k :: k in fields <==> k in llm.fields
    requires forall k :: k in fields ==> fields[k] == FieldWalk(LLM.fields, k, llm.fields[k], h)
    ensures Obj(fields) == Walk(Llm, llm, h)
  {
    BlockWalks(LLM.fields, llm, fields, h);
  }

  lemma {:induction false} MaskLlmWalks(llm: Json)
    requires llm.Obj?
    ensures MaskLlm(llm) == Walk(Llm, llm, Masking)
    decreases llm
  {
    if "failover" in llm.fields && llm.fields["failover"].Arr? {
      var items := llm.fields["failover"].items;
      forall i | 0 <= i < |items|
        ensures (if items[i].Obj? then MaskLlm(items[i]) else items[i]) == Walk(Llm, items[i], Masking)
      {
        if items[i].Obj? {
          MaskLlmWalks(items[i]);
        }
      }
      assert MaskLlm(llm).fields["failover"] == Walk(Each(Llm), llm.fields["failover"], Masking);
    }
    LlmWalks(llm, MaskLlm(llm).fields, Masking);
  }

  lemma {:induction false} MapLlmWalks(llm: Json, fn: Convert)
    requires llm.Obj?
    ensures MapLlm(llm, fn) == Walk(Llm, llm, Mapping(fn))
    decreases llm
  {
    if "failover" in llm.fields && llm.fields["failover"].Arr? {
      var items := llm.fields["failover"].items;
      forall i | 0 <= i < |items|
        ensures (if items[i].Obj? then MapLlm(items[i], fn) else items[i]) == Walk(Llm, items[i], Mapping(fn))
      {
        if items[i].Obj? {
          MapLlmWalks(items[i], fn);
        }
      }
      assert MapLlm(llm, fn).fields["failover"] == Walk(Each(Llm), llm.fields["failover"], Mapping(fn));
    }
    LlmWalks(llm, MapLlm(llm, fn).fields, Mapping(fn));
  }

  lemma {:induction false} FrozenLlmWalks(llm: Json, fn: Convert)
    requires llm.Obj?
    ensures FrozenLlm(llm, fn) == Walk(Llm, llm, Mapping(fn))
    decreases llm
  {
    if "failover" in llm.fields && llm.fields["failover"].Arr? {
      var items := llm.fields["failover"].items;
      forall i | 0 <= i < |items|
        ensures (if items[i].Obj? then FrozenLlm(items[i], fn) else items[i]) == Walk(Llm, items[i], Mapping(fn))
      {
        if items[i].Obj? {
          FrozenLlmWalks(items[i], fn);
        }
      }
      assert FrozenLlm(llm, fn).fields["failover"] == Walk(Each(Llm), llm.fields["failover"], Mapping(fn));
    }
    LlmWalks(llm, FrozenLlm(llm, fn).fields, Mapping(fn));
  }

  lemma MaskAwsWalks(aws: Json)
    ensures MaskAws(aws) == Walk(AWS, aws, Masking)
  {
    if aws.Obj? {
      BlockWalks(AWS.fields, aws, MaskAws(aws).fields, Masking);
    }
  }

  lemma MapAwsWalks(aws: Json, fn: Convert)
    ensures MapUnder({"access_key_id", "secret_access_key", "session_token"}, aws, fn) == Walk(AWS, aws, Mapping(fn))
  {
    if aws.Obj? {
      var mapped := MapKeys(aws, {"access_key_id", "secret_access_key", "session_token"}, fn);
      BlockWalks(AWS.fields, aws, mapped.fields, Mapping(fn));
    }
  }

  lemma FrozenAwsWalks(aws: Json, fn: Convert)
    requires aws.Obj?
    ensures FrozenAws(aws, fn) == Walk(AWS, aws, Mapping(fn))
  {
    BlockWalks(AWS.fields, aws, FrozenAws(aws, fn).fields, Mapping(fn));
  }

  lemma MaskUnderWalks(key: string, block: Json)
    ensures MaskUnder(key, block) == Walk(At(map[key := Leaf(Secret)]), block, Masking)
  {
  }

  lemma MapUnderWalks(key: string, block: Json, fn: Convert)
    ensures MapUnder({key}, block, fn) == Walk(At(map[key := Leaf(Secret)]), block, Mapping(fn))
    ensures FrozenUnder(key, block, fn) == Walk(At(map[key := Leaf(Secret)]), block, Mapping(fn))
  {
  }

  lemma EntriesWalk(v: Json, fn: Convert)
    ensures MaskEntries(v) == Walk(Every(Leaf(Entry)), v, Masking)
    ensures MapEntries(v, fn) == Walk(Every(Leaf(Entry)), v, Mapping(fn))
  {
  }

  lemma MaskMcpServerWalks(server: Json)
    ensures MaskMcpServer(server) == Walk(MCP_SERVER, server, Masking)
  {
    if server.Obj? {
      var fields := MaskMcpServer(server).fields;
      forall k | k in fields ensures fields[k] == FieldWalk(MCP_SERVER.fields, k, server.fields[k], Masking) {
        EntriesWalk(server.fields[k], s => s);
      }
      BlockWalks(MCP_SERVER.fields, server, fields, Masking);
    }
  }

  lemma MapMcpServerWalks(server: Json, fn: Convert)
    ensures MapMcpServer(server, fn) == Walk(MCP_SERVER, server, Mapping(fn))
  {
    if server.Obj? {
      var fields := MapMcpServer(server, fn).fields;
      forall k | k in fields ensures fields[k] == FieldWalk(MCP_SERVER.fields, k, server.fields[k], Mapping(fn)) {
        EntriesWalk(server.fields[k], fn);
      }
      BlockWalks(MCP_SERVER.fields, server, fields, Mapping(fn));
    }
  }

  lemma FrozenMcpServerWalks(server: Json, fn: Convert)
    ensures FrozenMcpServer(server, fn) == Walk(MCP_SERVER, server, Mapping(fn))
  {
    if server.Obj? {
      var fields := FrozenMcpServer(server, fn).fields;
      forall k | k in fields ensures fields[k] == FieldWalk(MCP_SERVER.fields, k, server.fields[k], Mapping(fn)) {
        EntriesWalk(server.fields[k], fn);
      }
      BlockWalks(MCP_SERVER.fields, server, fields, Mapping(fn));
    }
  }

  // ----- the whole config

  function BlockAt(k: string, v: Json, blocks: Blocks): Json
  {
    if k == "llm" then blocks.llm(v)
    else if k == "aws" then blocks.aws(v)
    else if k == "server_url" then blocks.serverUrl(v)
    else if k == "tools" then blocks.tools(v)
    else if k == "mcp_servers" then blocks.mcpServers(v)
    else v
  }

  lemma OverAt(fields: map<string, Json>, key: string, g: Json -> Json, k: string)
    ensures k in Over(fields, key, g) <==> k in fields
    ensures k in fields ==> Over(fields, key, g)[k] == if k == key then g(fields[k]) else fields[k]
  {
  }

  /** Each block is changed once: the five keys differ. */
  lemma FiveBlocksAt(fields: map<string, Json>, blocks: Blocks, k: string)
    ensures k in FiveBlocks(fields, blocks) <==> k in fields
    ensures k in fields ==>
      FiveBlocks(fields, blocks)[k] == BlockAt(k, fields[k], blocks)
  {
    var llm := Over(fields, "llm", blocks.llm);
    var aws := Over(llm, "aws", blocks.aws);
    var url := Over(aws, "server_url", blocks.serverUrl);
    var tools := Over(url, "tools", blocks.tools);
    OverAt(fields, "llm", blocks.llm, k);
    OverAt(llm, "aws", blocks.aws, k);
    OverAt(aws, "server_url", blocks.serverUrl, k);
    OverAt(url, "tools", blocks.tools, k);
    OverAt(tools, "mcp_servers", blocks.mcpServers, k);
  }

  /** Each block is walked as the config's shape says. */
  ghost predicate BlocksWalk(blocks: Blocks, v: Json, h: (Kind, Json) -> Json) {
    && blocks.llm(v) == Walk(Llm, v, h)
    && blocks.aws(v) == Walk(AWS, v, h)
    && blocks.serverUrl(v) == Walk(SERVER_URL, v, h)
    && blocks.tools(v) == Walk(TOOLS, v, h)
    && blocks.mcpServers(v) == Walk(Each(MCP_SERVER), v, h)
  }

  lemma BlockAtWalks(k: string, v: Json, blocks: Blocks, h: (Kind, Json) -> Json)
    requires BlocksWalk(blocks, v, h)
    ensures BlockAt(k, v, blocks) == FieldWalk(CONFIG.fields, k, v, h)
  {
  }

  lemma ConfigWalks(config: Json, blocks: Blocks, h: (Kind, Json) -> Json)
    requires config.Obj?
    requires forall k :: k in config.fields ==> BlocksWalk(blocks, config.fields[k], h)
    ensures Obj(FiveBlocks(config.fields, blocks)) == Walk(CONFIG, config, h)
  {
    var out := FiveBlocks(config.fields, blocks);
    forall k ensures k in out <==> k in config.fields {
      FiveBlocksAt(config.fields, blocks, k);
    }
    forall k | k in out ensures out[k] == FieldWalk(CONFIG.fields, k, config.fields[k], h) {
      FiveBlocksAt(config.fields, blocks, k);
      BlockAtWalks(k, config.fields[k], blocks, h);
    }
    BlockWalks(CONFIG.fields, config, out, h);
  }

  lemma LlmOrNot(v: Json, fn: Convert)
    ensures MASKED.llm(v) == Walk(Llm, v, Masking)
    ensures Mapped(fn).llm(v) == Frozen(fn).llm(v) == Walk(Llm, v, Mapping(fn))
  {
    if v.Obj? {
      MaskLlmWalks(v);
      MapLlmWalks(v, fn);
      FrozenLlmWalks(v, fn);
    }
  }

  lemma MaskToolsWalk(v: Json)
    ensures MASKED.tools(v) == Walk(TOOLS, v, Masking)
  {
    forall x ensures MaskUnder("webhook_secret", x) == Walk(TOOLS.item, x, Masking) {
      MaskUnderWalks("webhook_secret", x);
    }
    ItemsWalk(v, (tool: Json) => MaskUnder("webhook_secret", tool), TOOLS.item, Masking);
  }

  lemma MapToolsWalk(v: Json, fn: Convert)
    ensures Mapped(fn).tools(v) == Walk(TOOLS, v, Mapping(fn))
  {
    forall x ensures MapUnder({"webhook_secret"}, x, fn) == Walk(TOOLS.item, x, Mapping(fn)) {
      MapUnderWalks("webhook_secret", x, fn);
    }
    ItemsWalk(v, (tool: Json) => MapUnder({"webhook_secret"}, tool, fn), TOOLS.item, Mapping(fn));
  }

  lemma FrozenToolsWalk(v: Json, fn: Convert)
    ensures Frozen(fn).tools(v) == Walk(TOOLS, v, Mapping(fn))
  {
    forall x ensures FrozenUnder("webhook_secret", x, fn) == Walk(TOOLS.item, x, Mapping(fn)) {
      MapUnderWalks("webhook_secret", x, fn);
    }
    ItemsWalk(v, (tool: Json) => FrozenUnder("webhook_secret", tool, fn), TOOLS.item, Mapping(fn));
  }

  lemma MaskServersWalk(v: Json)
    ensures MASKED.mcpServers(v) == Walk(Each(MCP_SERVER), v, Masking)
  {
    forall x ensures MaskMcpServer(x) == Walk(MCP_SERVER, x, Masking) {
      MaskMcpServerWalks(x);
    }
    ItemsWalk(v, MaskMcpServer, MCP_SERVER, Masking);
  }

  lemma MapServersWalk(v: Json, fn: Convert)
    ensures Mapped(fn).mcpServers(v) == Walk(Each(MCP_SERVER), v, Mapping(fn))
  {
    forall x ensures MapMcpServer(x, fn) == Walk(MCP_SERVER, x, Mapping(fn)) {
      MapMcpServerWalks(x, fn);
    }
    ItemsWalk(v, (server: Json) => MapMcpServer(server, fn), MCP_SERVER, Mapping(fn));
  }

  lemma FrozenServersWalk(v: Json, fn: Convert)
    ensures Frozen(fn).mcpServers(v) == Walk(Each(MCP_SERVER), v, Mapping(fn))
  {
    forall x ensures FrozenMcpServer(x, fn) == Walk(MCP_SERVER, x, Mapping(fn)) {
      FrozenMcpServerWalks(x, fn);
    }
    ItemsWalk(v, (server: Json) => FrozenMcpServer(server, fn), MCP_SERVER, Mapping(fn));
  }

  lemma AllBlocksWalk(v: Json, fn: Convert)
    ensures BlocksWalk(MASKED, v, Masking)
    ensures BlocksWalk(Mapped(fn), v, Mapping(fn))
    ensures BlocksWalk(Frozen(fn), v, Mapping(fn))
  {
    LlmOrNot(v, fn);
    MaskAwsWalks(v);
    MapAwsWalks(v, fn);
    if v.Obj? {
      FrozenAwsWalks(v, fn);
    }
    MaskUnderWalks("secret", v);
    MapUnderWalks("secret", v, fn);
    MaskToolsWalk(v);
    MapToolsWalk(v, fn);
    FrozenToolsWalk(v, fn);
    MaskServersWalk(v);
    MapServersWalk(v, fn);
    FrozenServersWalk(v, fn);
  }

  /** Masking, sealing and the migration reach the places of the one shape, whatever the
      config is; the migration's copy is the function the application uses. */
  lemma AllWalkTheSame(config: Json, fn: Convert)
    ensures SanitizeConfig(config) == Walk(CONFIG, config, Masking)
    ensures MapSecrets(config, fn) == MapConfig(config, fn) == Walk(CONFIG, config, Mapping(fn))
  {
    if config.Obj? {
      forall k | k in config.fields
        ensures BlocksWalk(MASKED, config.fields[k], Masking)
        ensures BlocksWalk(Mapped(fn), config.fields[k], Mapping(fn))
        ensures BlocksWalk(Frozen(fn), config.fields[k], Mapping(fn))
      {
        AllBlocksWalk(config.fields[k], fn);
      }
      ConfigWalks(config, MASKED, Masking);
      ConfigWalks(config, Mapped(fn), Mapping(fn));
      ConfigWalks(config, Frozen(fn), Mapping(fn));
    }
  }

  // ----- what follows

  /** Masking twice is masking once. */
  lemma SanitizeIsIdempotent(config: Json)
    ensures SanitizeConfig(SanitizeConfig(config)) == SanitizeConfig(config)
  {
    AllWalkTheSame(config, s => s);
    AllWalkTheSame(SanitizeConfig(config), s => s);
    MaskTwice(CONFIG, config);
  }

  lemma MaskTwice(shape: Shape, x: Json)
    ensures Walk(shape, Walk(shape, x, Masking), Masking) == Walk(shape, x, Masking)
  {
    WalkTwice(shape, x, Masking, Masking);
    WalksAgree(shape, x, Then(Masking, Masking), Masking);
  }

  /** What a reader still sees of what storage seals: the id of the AWS key. */
  function KeyIdOnly(fn: Convert): (Kind, Json) -> Json {
    (kind: Kind, v: Json) => if kind.KeyId? then MapValue(v, fn) else v
  }

  /** A sealed config reads as the plain one does, but for the id of its AWS key, which
      is sealed and not masked. */
  lemma SanitizeAfterMap(config: Json, fn: Convert)
    ensures SanitizeConfig(MapSecrets(config, fn)) == Walk(CONFIG, SanitizeConfig(config), KeyIdOnly(fn))
  {
    AllWalkTheSame(config, fn);
    AllWalkTheSame(MapSecrets(config, fn), fn);
    MaskAfterMap(CONFIG, config, fn);
  }

  lemma MaskAfterMap(shape: Shape, x: Json, fn: Convert)
    ensures Walk(shape, Walk(shape, x, Mapping(fn)), Masking) == Walk(shape, Walk(shape, x, Masking), KeyIdOnly(fn))
  {
    WalkTwice(shape, x, Mapping(fn), Masking);
    WalkTwice(shape, x, Masking, KeyIdOnly(fn));
    forall kind, v ensures Then(Mapping(fn), Masking)(kind, v) == Then(Masking, KeyIdOnly(fn))(kind, v) {
      MaskAfterMapAt(kind, v, fn);
    }
    WalksAgree(shape, x, Then(Mapping(fn), Masking), Then(Masking, KeyIdOnly(fn)));
  }

  lemma MaskAfterMapAt(kind: Kind, v: Json, fn: Convert)
    ensures Then(Mapping(fn), Masking)(kind, v) == Then(Masking, KeyIdOnly(fn))(kind, v)
  {
    assert Then(Mapping(fn), Masking)(kind, v) == Masking(kind, MapValue(v, fn));
    assert Then(Masking, KeyIdOnly(fn))(kind, v) == KeyIdOnly(fn)(kind, Masking(kind, v));
  }

  /** A non-empty string in one of the places a config's secrets lie. */
  ghost predicate HasSecret(shape: Shape, x: Json, s: string) {
    s != "" && exists kind :: Reaches(shape, x, kind, Str(s))
  }

  /** What `f` and then `g` make of a secret: an empty one is no secret to `g`. */
  function BackAndForth(f: Convert, g: Convert, s: string): string {
    if f(s) == "" then "" else g(f(s))
  }

  /** Mapping with `f` and then `g` gives back a config exactly when that gives back each
      of its secrets. */
  lemma RoundTrip(config: Json, f: Convert, g: Convert)
    ensures MapSecrets(MapSecrets(config, f), g) == config <==>
      forall s :: HasSecret(CONFIG, config, s) ==> BackAndForth(f, g, s) == s
  {
    AllWalkTheSame(config, f);
    AllWalkTheSame(MapSecrets(config, f), g);
    WalkRoundTrip(CONFIG, config, f, g);
  }

  lemma TwiceAt(kind: Kind, v: Json, f: Convert, g: Convert)
    ensures Then(Mapping(f), Mapping(g))(kind, v) == if v.Str? && v.s != "" then Str(BackAndForth(f, g, v.s)) else v
  {
  }

  lemma WalkRoundTrip(shape: Shape, x: Json, f: Convert, g: Convert)
    ensures Walk(shape, Walk(shape, x, Mapping(f)), Mapping(g)) == x <==>
      forall s :: HasSecret(shape, x, s) ==> BackAndForth(f, g, s) == s
  {
    var both := Then(Mapping(f), Mapping(g));
    WalkTwice(shape, x, Mapping(f), Mapping(g));
    UnchangedWhenKept(shape, x, both);
    forall kind, v ensures both(kind, v) == if v.Str? && v.s != "" then Str(BackAndForth(f, g, v.s)) else v {
      TwiceAt(kind, v, f, g);
    }
    KeptWhenSecretsAre(shape, x, both, s => BackAndForth(f, g, s));
  }

  /** Values kept are secrets kept, where only secrets are changed. */
  lemma KeptWhenSecretsAre(shape: Shape, x: Json, g: (Kind, Json) -> Json, fn: Convert)
    requires forall kind, v :: g(kind, v) == if v.Str? && v.s != "" then Str(fn(v.s)) else v
    ensures (forall kind, v :: Reaches(shape, x, kind, v) ==> g(kind, v) == v) <==>
      forall s :: HasSecret(shape, x, s) ==> fn(s) == s
  {
    if forall kind, v :: Reaches(shape, x, kind, v) ==> g(kind, v) == v {
      forall s | HasSecret(shape, x, s) ensures fn(s) == s {
        var kind :| Reaches(shape, x, kind, Str(s));
        assert g(kind, Str(s)) == Str(s);
      }
    }
    if forall s :: HasSecret(shape, x, s) ==> fn(s) == s {
      forall kind, v | Reaches(shape, x, kind, v) ensures g(kind, v) == v {
        if v.Str? && v.s != "" {
          assert HasSecret(shape, x, v.s);
        }
      }
    }
  }

  /** A map changes nothing exactly when it keeps every secret. */
  lemma UnchangedWhenSecretsAre(shape: Shape, x: Json, fn: Convert)
    ensures Walk(shape, x, Mapping(fn)) == x <==> forall s :: HasSecret(shape, x, s) ==> fn(s) == s
  {
    UnchangedWhenKept(shape, x, Mapping(fn));
    KeptWhenSecretsAre(shape, x, Mapping(fn), fn);
  }
}
