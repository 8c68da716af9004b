/** Protocol types shared by the pipeline: intents, capabilities, audit states, windows. */
module Spec {
  import opened Wrappers

  /* ----- Intents ----- */

  datatype RiskLevel = Low | Medium | High {
    function Rank(): nat {
      match this case Low => 0 case Medium => 1 case High => 2
    }
  }

  datatype ActionType = PreWarmProcess | PrefetchFile | KeepAlive | ReleaseMemory | NoOp

  datatype ActionUrgency = Immediate | IdleTime | Deferred

  datatype SuggestedAction = SuggestedAction(actionType: ActionType, target: Option<string>, urgency: ActionUrgency)

  datatype ExtensionCategory = Document | Image | Video | Audio | Archive | Code | Other | Unknown

  datatype IntentType =
    | OpenApp(app: string)
    | SwitchToApp(app: string)
    | CheckNotification(app: string)
    | HandleFile(extension: ExtensionCategory)
    | EnterContext(name: string)
    | Idle

  datatype Intent = Intent(
    intentId: string,
    intentType: IntentType,
    confidence: real,
    riskLevel: RiskLevel,
    suggestedActions: seq<SuggestedAction>,
    rationaleTags: seq<string>)

  datatype IntentBatch = IntentBatch(windowId: string, intents: seq<Intent>, generatedAtMs: int, model: string)

  datatype DecisionRoute = RuleBased | LocalEvaluator | CloudLlm | FallbackNoOp | Mock

  datatype DenialReason =
    | RiskExceedsConfig
    | RiskExceedsCapability
    | ConfidenceTooLow
    | ActionTypeBlocked
    | ActionUrgencyDeferred
    | ActionCapabilityDenied
    | TargetNotInContext
    | BatchActionCapExceeded

  /** What a decision backend may at most propose. */
  datatype CapabilityLevel = CapabilityLevel(maxRisk: RiskLevel, allowedActions: seq<ActionType>) {
    predicate AllowsRisk(risk: RiskLevel) {
      risk.Rank() <= maxRisk.Rank()
    }

    predicate AllowsAction(action: ActionType) {
      action in allowedActions
    }
  }

  function CapabilityForRoute(route: DecisionRoute): CapabilityLevel {
    match route
    case RuleBased => CapabilityLevel(Low, [NoOp, ReleaseMemory, KeepAlive])
    case LocalEvaluator => CapabilityLevel(Low, [NoOp, PreWarmProcess, PrefetchFile, ReleaseMemory, KeepAlive])
    case CloudLlm => CapabilityLevel(Medium, [NoOp, PreWarmProcess, PrefetchFile, KeepAlive, ReleaseMemory])
    case FallbackNoOp => CapabilityLevel(Low, [NoOp])
    case Mock => CapabilityLevel(Medium, [NoOp, PreWarmProcess, PrefetchFile, KeepAlive, ReleaseMemory])
  }

  /* ----- Sanitized windows ----- */

  datatype SourceTier = PublicApi | Daemon | PrivilegedDaemon | SystemImage

  datatype AppTransition = Foreground | Background

  datatype InteractionType = NotifyPost | ActivityLaunch | ShareIntent | ServiceBind

  datatype SemanticHint =
    | FileMention | ImageMention | AudioMessage | LinkAttachment
    | UserMentioned | CalendarInvitation | FinancialContext | VerificationCode

  datatype ScreenState = Interactive | NonInteractive | KeyguardShown | KeyguardHidden

  datatype NetworkType = Wifi | Cellular | Offline | UnknownNetwork

  datatype SystemStatus = SystemStatus(batteryPct: Option<nat>, isCharging: bool, network: NetworkType)

  datatype SanitizedEventType =
    | AppTransitionEvent(packageName: string, transition: AppTransition)
    | InterAppInteraction(sourcePackage: Option<string>, interactionType: InteractionType)
    | Notification(sourceApp: string, semanticHints: seq<SemanticHint>, isOngoing: bool)
    | ProcessResource(processPackage: Option<string>, vmRssMb: nat, vmSwapMb: nat)
    | FileActivity(filePackage: Option<string>, extension: ExtensionCategory, isHotFile: bool)
    | Screen(state: ScreenState)
    | SystemStatusEvent(status: SystemStatus)

  datatype SanitizedEvent = SanitizedEvent(
    timestampMs: int,
    eventType: SanitizedEventType,
    sourceTier: SourceTier,
    appPackage: Option<string>)

  datatype ContextSummary = ContextSummary(
    foregroundApps: seq<string>,
    notifiedApps: seq<string>,
    semanticHints: seq<SemanticHint>,
    fileActivity: map<ExtensionCategory, nat>,
    latestSystemStatus: Option<SystemStatus>,
    sourceTier: SourceTier)

  datatype StructuredContext = StructuredContext(
    windowStartMs: int,
    windowEndMs: int,
    durationSecs: nat,
    events: seq<SanitizedEvent>,
    summary: ContextSummary)

  /* ----- Governance ----- */

  datatype EffectClass = PureRead | LocalCacheWrite | LocalStateChange

  function EffectOf(action: ActionType): EffectClass {
    match action
    case NoOp => PureRead
    case PrefetchFile => LocalCacheWrite
    case PreWarmProcess | KeepAlive | ReleaseMemory => LocalStateChange
  }

  datatype ActionState =
    | Proposed | SchemaValidated | PolicyChecked | Dispatched | Succeeded
    | RejectedInvalidSchema | DeniedByCapability | DeniedByPolicy | Failed
  {
    predicate IsTerminal() {
      this in {Succeeded, RejectedInvalidSchema, DeniedByCapability, DeniedByPolicy, Failed}
    }
  }

  datatype PolicyVerdict = Approved | Denied(reason: DenialReason)

  /** Position of an action in a batch: intent ordinal, then action ordinal. */
  datatype Coord = Coord(intent: nat, action: nat)

  datatype PolicyActionDecision = PolicyActionDecision(coord: Coord, verdict: PolicyVerdict)
}
