/** The records the automation dashboard keeps: keyword triggers, the single
    automation configuration and the dashboard statistics, plus the partial
    records (`Partial<T>`, `Omit<T, ...>`) its operations take. */
module AutomationTypes {
  import opened Wrappers

  /** A clock reading (`Date`), only compared for equality. */
  type Timestamp = int

  /** A keyword trigger: the word the automation listens for in comments and
      the reply (message, link and button label) it sends back. */
  datatype Keyword = Keyword(
    id: string,
    word: string,
    enabled: bool,
    link: string,
    message: string,
    buttonText: string,
    createdAt: Timestamp,
    triggersCount: int
  )

  /** The five fields a user supplies for a new keyword:
      `Omit<Keyword, "id" | "createdAt" | "triggersCount">`. */
  datatype KeywordDraft = KeywordDraft(
    word: string,
    enabled: bool,
    link: string,
    message: string,
    buttonText: string
  )

  /** `Partial<Keyword>`: `None` marks a field the update leaves alone. */
  datatype KeywordPatch = KeywordPatch(
    id: Option<string>,
    word: Option<string>,
    enabled: Option<bool>,
    link: Option<string>,
    message: Option<string>,
    buttonText: Option<string>,
    createdAt: Option<Timestamp>,
    triggersCount: Option<int>
  )

  const NoKeywordChanges := KeywordPatch(None, None, None, None, None, None, None, None)

  /** The credentials and behaviour switches the external workflow reads. */
  datatype AutomationConfig = AutomationConfig(
    accessToken: string,
    instagramId: string,
    baseUrl: string,
    apiKey: string,
    delaySeconds: int,
    replyToComment: bool,
    sendDM: bool
  )

  /** `Partial<AutomationConfig>`. */
  datatype ConfigPatch = ConfigPatch(
    accessToken: Option<string>,
    instagramId: Option<string>,
    baseUrl: Option<string>,
    apiKey: Option<string>,
    delaySeconds: Option<int>,
    replyToComment: Option<bool>,
    sendDM: Option<bool>
  )

  const NoConfigChanges := ConfigPatch(None, None, None, None, None, None, None)

  /** The patch that sets every field of the configuration to `c`'s value. */
  function WholeConfig(c: AutomationConfig): ConfigPatch {
    ConfigPatch(Some(c.accessToken), Some(c.instagramId), Some(c.baseUrl), Some(c.apiKey),
                Some(c.delaySeconds), Some(c.replyToComment), Some(c.sendDM))
  }

  /** The aggregate figures the dashboard shows. */
  datatype DashboardStats = DashboardStats(
    totalTriggers: int,
    activeKeywords: nat,
    messagesSent: int,
    lastActivity: Option<Timestamp>
  )
}
