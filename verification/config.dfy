/** `Settings` of `config.py`: the service configuration, its field bounds
    and defaults, the cross-field `validate_model` check, and its redacted
    string form.

    The settings are built from raw values as the environment supplies them:
    a field that is absent takes its default, and a required field that is
    absent is a validation error. The enumerations arrive as their string
    values. Reading the environment and the secret store is not modelled. */
module Config {
  import opened Wrappers
  import opened Strings

  datatype ModelName = Gpt4o | BedrockClaudeV2 | SonnetBedrockAws | OpenrouterDeepseekR1 | O3Mini
  datatype AgentType = OpenHands | Aider | Raaid
  datatype ProviderType = OpenAi | LiteLlm

  // ---------------------------------------------------------------------
  // The enumerations and their string values
  // ---------------------------------------------------------------------

  function ModelNameValue(m: ModelName): string {
    match m
    case Gpt4o => "gpt-4o"
    case BedrockClaudeV2 => "bedrock-claude-v2"
    case SonnetBedrockAws => "bedrock/anthropic.claude-3-5-sonnet-20241022-v2:0"
    case OpenrouterDeepseekR1 => "openrouter/deepseek/deepseek-r1"
    case O3Mini => "o3-mini"
  }

  /** The member whose value is `s`, if any. */
  function ParseModelName(s: string): (r: Option<ModelName>)
    ensures r.Some? ==> ModelNameValue(r.value) == s
  {
    if s == "gpt-4o" then Some(Gpt4o)
    else if s == "bedrock-claude-v2" then Some(BedrockClaudeV2)
    else if s == "bedrock/anthropic.claude-3-5-sonnet-20241022-v2:0" then Some(SonnetBedrockAws)
    else if s == "openrouter/deepseek/deepseek-r1" then Some(OpenrouterDeepseekR1)
    else if s == "o3-mini" then Some(O3Mini)
    else None
  }

  function AgentTypeValue(a: AgentType): string {
    match a
    case OpenHands => "open-hands"
    case Aider => "aider"
    case Raaid => "raaid"
  }

  function ParseAgentType(s: string): (r: Option<AgentType>)
    ensures r.Some? ==> AgentTypeValue(r.value) == s
  {
    if s == "open-hands" then Some(OpenHands)
    else if s == "aider" then Some(Aider)
    else if s == "raaid" then Some(Raaid)
    else None
  }

  function ProviderTypeValue(p: ProviderType): string {
    match p
    case OpenAi => "openai"
    case LiteLlm => "litellm"
  }

  function ParseProviderType(s: string): (r: Option<ProviderType>)
    ensures r.Some? ==> ProviderTypeValue(r.value) == s
  {
    if s == "openai" then Some(OpenAi)
    else if s == "litellm" then Some(LiteLlm)
    else None
  }

  /** Every member is recovered from its value, so no two members share a
      value. */
  lemma EnumValuesRoundTrip(m: ModelName, a: AgentType, p: ProviderType)
    ensures ParseModelName(ModelNameValue(m)) == Some(m)
    ensures ParseAgentType(AgentTypeValue(a)) == Some(a)
    ensures ParseProviderType(ProviderTypeValue(p)) == Some(p)
  {
  }

  // ---------------------------------------------------------------------
  // The settings and their defaults
  // ---------------------------------------------------------------------

  datatype Settings = Settings(
    foundationModelName: Option<ModelName>,
    architectModelName: Option<ModelName>,
    openrouterApiKey: string,
    openaiApiKey: string,
    githubPat: string,
    githubUsername: string,
    githubEmail: string,
    awsRegionName: string,
    awsAccessKeyId: string,
    awsSecretAccessKey: string,
    marketUrl: string,
    marketApiKey: string,
    marketOpenInstanceCode: int,
    marketResolvedInstanceCode: int,
    marketAwardedProposalCode: int,
    maxBid: real,
    minBid: real,
    backoffFactor: real,
    increaseFactor: real,
    agentType: AgentType,
    openaiApiBase: Option<string>,
    provider: ProviderType,
    litellmApiKey: string,
    litellmDockerInternalApiBase: Option<string>,
    litellmLocalApiBase: string)

  const DefaultArchitectModel := OpenrouterDeepseekR1
  const DefaultMarketUrl := "https://api.agent.market"
  const DefaultOpenInstanceCode := 0
  const DefaultResolvedInstanceCode := 3
  const DefaultAwardedProposalCode := 1
  const DefaultMaxBid := 0.05
  const DefaultMinBid := 0.0
  const DefaultBackoffFactor := 0.8
  const DefaultIncreaseFactor := 1.2
  const DefaultProvider := OpenAi
  const DefaultLitellmApiKey := "dummy"
  const DefaultLitellmLocalApiBase := "http://0.0.0.0:4000"

  /** The values the environment supplies, None where a field is absent.
      `architectModelName` is `Some(None)` when given as null; the other
      optional fields default to null, so absent and null coincide. */
  datatype RawSettings = RawSettings(
    foundationModelName: Option<string>,
    architectModelName: Option<Option<string>>,
    openrouterApiKey: Option<string>,
    openaiApiKey: Option<string>,
    githubPat: Option<string>,
    githubUsername: Option<string>,
    githubEmail: Option<string>,
    awsRegionName: Option<string>,
    awsAccessKeyId: Option<string>,
    awsSecretAccessKey: Option<string>,
    marketUrl: Option<string>,
    marketApiKey: Option<string>,
    marketOpenInstanceCode: Option<int>,
    marketResolvedInstanceCode: Option<int>,
    marketAwardedProposalCode: Option<int>,
    maxBid: Option<real>,
    minBid: Option<real>,
    backoffFactor: Option<real>,
    increaseFactor: Option<real>,
    agentType: Option<string>,
    openaiApiBase: Option<string>,
    provider: Option<string>,
    litellmApiKey: Option<string>,
    litellmDockerInternalApiBase: Option<string>,
    litellmLocalApiBase: Option<string>)

  // ---------------------------------------------------------------------
  // Field validation
  // ---------------------------------------------------------------------

  function Check(field: string, bad: bool): seq<string> {
    if bad then [field] else []
  }

  function Required(field: string, v: Option<string>): seq<string> {
    Check(field, v.None?)
  }

  /** The secrets and identities that have no default. */
  function RequiredErrors(raw: RawSettings): seq<string> {
    Required("openrouter_api_key", raw.openrouterApiKey)
    + Required("openai_api_key", raw.openaiApiKey)
    + Required("github_pat", raw.githubPat)
    + Required("github_username", raw.githubUsername)
    + Required("github_email", raw.githubEmail)
    + Required("aws_region_name", raw.awsRegionName)
    + Required("aws_access_key_id", raw.awsAccessKeyId)
    + Required("aws_secret_access_key", raw.awsSecretAccessKey)
    + Required("market_api_key", raw.marketApiKey)
  }

  /** The four bid parameters against their bounds; absent ones take
      in-bounds defaults. */
  function BoundErrors(raw: RawSettings): seq<string> {
    Check("max_bid", raw.maxBid.Some? && raw.maxBid.value <= 0.0)
    + Check("min_bid", raw.minBid.Some? && raw.minBid.value < 0.0)
    + Check("backoff_factor", raw.backoffFactor.Some? && !(0.0 < raw.backoffFactor.value < 1.0))
    + Check("increase_factor", raw.increaseFactor.Some? && raw.increaseFactor.value <= 1.0)
  }

  /** The enumerations: the agent type is required, the others optional. */
  function EnumErrors(raw: RawSettings): seq<string> {
    Check("foundation_model_name",
          raw.foundationModelName.Some? && ParseModelName(raw.foundationModelName.value).None?)
    + Check("architect_model_name",
            raw.architectModelName.Some? && raw.architectModelName.value.Some?
            && ParseModelName(raw.architectModelName.value.value).None?)
    + Check("agent_type", raw.agentType.None? || ParseAgentType(raw.agentType.value).None?)
    + Check("provider", raw.provider.Some? && ParseProviderType(raw.provider.value).None?)
  }

  /** Every field that fails validation; pydantic reports them together. */
  function FieldErrors(raw: RawSettings): seq<string> {
    RequiredErrors(raw) + BoundErrors(raw) + EnumErrors(raw)
  }

  /** An independent statement of when every field validates. */
  predicate FieldsValid(raw: RawSettings) {
    && raw.openrouterApiKey.Some? && raw.openaiApiKey.Some? && raw.githubPat.Some?
    && raw.githubUsername.Some? && raw.githubEmail.Some? && raw.awsRegionName.Some?
    && raw.awsAccessKeyId.Some? && raw.awsSecretAccessKey.Some? && raw.marketApiKey.Some?
    && (raw.maxBid.Some? ==> raw.maxBid.value > 0.0)
    && (raw.minBid.Some? ==> raw.minBid.value >= 0.0)
    && (raw.backoffFactor.Some? ==> 0.0 < raw.backoffFactor.value < 1.0)
    && (raw.increaseFactor.Some? ==> raw.increaseFactor.value > 1.0)
    && (raw.foundationModelName.Some? ==> ParseModelName(raw.foundationModelName.value).Some?)
    && (raw.architectModelName.Some? && raw.architectModelName.value.Some? ==>
          ParseModelName(raw.architectModelName.value.value).Some?)
    && raw.agentType.Some? && ParseAgentType(raw.agentType.value).Some?
    && (raw.provider.Some? ==> ParseProviderType(raw.provider.value).Some?)
  }

  lemma NoErrorsIff(raw: RawSettings)
    ensures |FieldErrors(raw)| == 0 <==> FieldsValid(raw)
  {
  }

  /** The settings the raw values give, defaults filled in. */
  function Assemble(raw: RawSettings): Settings
    requires FieldsValid(raw)
  {
    Settings(
      if raw.foundationModelName.Some? then ParseModelName(raw.foundationModelName.value) else None,
      match raw.architectModelName
        case None => Some(DefaultArchitectModel)
        case Some(None) => None
        case Some(Some(m)) => ParseModelName(m),
      raw.openrouterApiKey.value,
      raw.openaiApiKey.value,
      raw.githubPat.value,
      raw.githubUsername.value,
      raw.githubEmail.value,
      raw.awsRegionName.value,
      raw.awsAccessKeyId.value,
      raw.awsSecretAccessKey.value,
      raw.marketUrl.GetOr(DefaultMarketUrl),
      raw.marketApiKey.value,
      raw.marketOpenInstanceCode.GetOr(DefaultOpenInstanceCode),
      raw.marketResolvedInstanceCode.GetOr(DefaultResolvedInstanceCode),
      raw.marketAwardedProposalCode.GetOr(DefaultAwardedProposalCode),
      raw.maxBid.GetOr(DefaultMaxBid),
      raw.minBid.GetOr(DefaultMinBid),
      raw.backoffFactor.GetOr(DefaultBackoffFactor),
      raw.increaseFactor.GetOr(DefaultIncreaseFactor),
      ParseAgentType(raw.agentType.value).value,
      raw.openaiApiBase,
      if raw.provider.Some? then ParseProviderType(raw.provider.value).value else DefaultProvider,
      raw.litellmApiKey.GetOr(DefaultLitellmApiKey),
      raw.litellmDockerInternalApiBase,
      raw.litellmLocalApiBase.GetOr(DefaultLitellmLocalApiBase))
  }

  // ---------------------------------------------------------------------
  // validate_model and construction
  // ---------------------------------------------------------------------

  const FoundationModelRequired := "foundation_model_name is required when agent_type is not raaid"
  const RaaidBaseRequired := "litellm_docker_internal_api_base is required when agent_type is raaid"
  const LitellmBaseRequired := "litellm_docker_internal_api_base is required when provider is litellm"

  /** The cross-field conditions `validate_model` enforces. */
  predicate ModelConsistent(s: Settings) {
    && (s.agentType != Raaid ==> s.foundationModelName.Some?)
    && (s.agentType == Raaid ==> s.litellmDockerInternalApiBase.Some?)
    && (s.provider == LiteLlm ==> s.litellmDockerInternalApiBase.Some?)
  }

  /** `validate_model`: the settings themselves when consistent, otherwise
      the ValueError of the first failing check. */
  function ValidateModel(s: Settings): (r: Result<Settings>)
    ensures r.Ok? <==> ModelConsistent(s)
    ensures r.Ok? ==> r.value == s
    ensures s.agentType != Raaid && s.foundationModelName.None? ==>
              r == Err(ValueError(FoundationModelRequired))
    ensures s.agentType == Raaid && s.litellmDockerInternalApiBase.None? ==>
              r == Err(ValueError(RaaidBaseRequired))
    ensures (&& s.provider == LiteLlm && s.litellmDockerInternalApiBase.None?
             && s.agentType != Raaid && s.foundationModelName.Some?)
            ==> r == Err(ValueError(LitellmBaseRequired))
  {
    if s.agentType != Raaid && s.foundationModelName.None? then Err(ValueError(FoundationModelRequired))
    else if s.agentType == Raaid && s.litellmDockerInternalApiBase.None? then Err(ValueError(RaaidBaseRequired))
    else if s.provider == LiteLlm && s.litellmDockerInternalApiBase.None? then Err(ValueError(LitellmBaseRequired))
    else Ok(s)
  }

  /** `Settings(...)`: field validation, then `validate_model`. */
  function Build(raw: RawSettings): (r: Result<Settings>)
    ensures r.Ok? <==> FieldsValid(raw) && ModelConsistent(Assemble(raw))
    ensures |FieldErrors(raw)| > 0 ==> r == Err(ValueError("validation error: " + Join(FieldErrors(raw), ", ")))
  {
    NoErrorsIff(raw);
    if |FieldErrors(raw)| > 0 then Err(ValueError("validation error: " + Join(FieldErrors(raw), ", ")))
    else ValidateModel(Assemble(raw))
  }

  /** Built settings keep every field bound: a positive maximum bid, a
      non-negative minimum, a backoff strictly between 0 and 1, an increase
      above 1; and they pass `validate_model` unchanged. */
  lemma BuildBounds(raw: RawSettings)
    requires Build(raw).Ok?
    ensures var s := Build(raw).value;
      && s.maxBid > 0.0 && s.minBid >= 0.0
      && 0.0 < s.backoffFactor < 1.0 && s.increaseFactor > 1.0
      && ValidateModel(s) == Ok(s)
  {
  }

  /** Absent fields take their defaults: market URL, instance and proposal
      codes 0, 3 and 1, bids 0.05 and 0.0, factors 0.8 and 1.2. */
  lemma BuildDefaults(raw: RawSettings)
    requires Build(raw).Ok?
    ensures var s := Build(raw).value;
      && (raw.marketUrl.None? ==> s.marketUrl == "https://api.agent.market")
      && (raw.marketOpenInstanceCode.None? ==> s.marketOpenInstanceCode == 0)
      && (raw.marketResolvedInstanceCode.None? ==> s.marketResolvedInstanceCode == 3)
      && (raw.marketAwardedProposalCode.None? ==> s.marketAwardedProposalCode == 1)
      && (raw.maxBid.None? ==> s.maxBid == 0.05)
      && (raw.minBid.None? ==> s.minBid == 0.0)
      && (raw.backoffFactor.None? ==> s.backoffFactor == 0.8)
      && (raw.increaseFactor.None? ==> s.increaseFactor == 1.2)
      && (raw.provider.None? ==> s.provider == OpenAi)
      && (raw.architectModelName.None? ==> s.architectModelName == Some(OpenrouterDeepseekR1))
  {
  }

  /** A non-raaid agent needs a foundation model, whatever else is set. */
  lemma NonRaaidNeedsFoundationModel(raw: RawSettings)
    requires FieldsValid(raw) && raw.foundationModelName.None?
    requires raw.agentType.value != "raaid"
    ensures Build(raw) == Err(ValueError(FoundationModelRequired))
  {
  }

  /** A raaid agent and the LiteLLM provider each need the Docker-internal
      LiteLLM base. */
  lemma LitellmBaseNeeded(raw: RawSettings)
    requires FieldsValid(raw) && raw.litellmDockerInternalApiBase.None?
    requires raw.agentType.value == "raaid" || raw.provider == Some("litellm")
    ensures Build(raw).Err?
  {
  }

  /** Nothing relates the two bids: a minimum above the maximum is
      accepted. */
  lemma MinAboveMaxAccepted(raw: RawSettings)
    requires FieldsValid(raw) && ModelConsistent(Assemble(raw))
    requires raw.minBid == Some(1.0) && raw.maxBid == Some(0.5)
    ensures Build(raw).Ok? && Build(raw).value.minBid > Build(raw).value.maxBid
  {
  }

  // ---------------------------------------------------------------------
  // __str__ and __repr__
  // ---------------------------------------------------------------------

  const Redacted := "Settings(***)"

  /** A text hides the secrets of the settings if every secret it contains
      is made only of characters of "Settings(***)". */
  predicate Hides(r: string, s: Settings) {
    && (Contains(r, s.githubPat) ==> OnlyRedactedChars(s.githubPat))
    && (Contains(r, s.marketApiKey) ==> OnlyRedactedChars(s.marketApiKey))
    && (Contains(r, s.openrouterApiKey) ==> OnlyRedactedChars(s.openrouterApiKey))
    && (Contains(r, s.openaiApiKey) ==> OnlyRedactedChars(s.openaiApiKey))
    && (Contains(r, s.awsSecretAccessKey) ==> OnlyRedactedChars(s.awsSecretAccessKey))
  }

  predicate OnlyRedactedChars(secret: string) {
    forall k :: 0 <= k < |secret| ==> secret[k] in Redacted
  }

  /** A secret with a character outside "Settings(***)" is not part of it. */
  lemma RedactedHidesSecret(secret: string)
    ensures Contains(Redacted, secret) ==> OnlyRedactedChars(secret)
  {
    if !OnlyRedactedChars(secret) {
      var k :| 0 <= k < |secret| && secret[k] !in Redacted;
      CharWitness(Redacted, secret, secret[k]);
    }
  }

  function Str(s: Settings): (r: string)
    ensures Hides(r, s)
  {
    RedactedHidesSecret(s.githubPat);
    RedactedHidesSecret(s.marketApiKey);
    RedactedHidesSecret(s.openrouterApiKey);
    RedactedHidesSecret(s.openaiApiKey);
    RedactedHidesSecret(s.awsSecretAccessKey);
    Redacted
  }

  function Repr(s: Settings): (r: string)
    ensures Hides(r, s)
  {
    Str(s)
  }

  /** The string form is the same for all settings, and `repr` agrees with
      `str`; so a secret with a character outside "Settings(***)" never
      appears in it. */
  lemma StrRevealsNothing(s: Settings, t: Settings, c: char)
    ensures Str(s) == Str(t) && Repr(s) == Str(s)
    ensures c in s.githubPat && c !in Redacted ==> !Contains(Repr(s), s.githubPat)
    ensures c in s.marketApiKey && c !in Redacted ==> !Contains(Repr(s), s.marketApiKey)
  {
    if c in s.githubPat && c !in Redacted {
      CharWitness(Repr(s), s.githubPat, c);
    }
    if c in s.marketApiKey && c !in Redacted {
      CharWitness(Repr(s), s.marketApiKey, c);
    }
  }
}
