/**
 * The agent's configuration: one record per section of the TOML file, held by
 * a `Config` object that the driver and `InitializeAgentURL` update in place.
 */
module Configuration {

  datatype MatomoSection = MatomoSection(
    url: string,
    trackerUrl: string,
    agentUrl: string,
    siteId: string,
    webSite: string,
    tokenAuth: string,
    plugin: bool,
    downloads: bool)

  datatype LogSection = LogSection(
    logFormat: string,
    logPath: string,
    userAgents: seq<string>,
    excludedUrls: seq<string>)

  datatype AgentSection = AgentSection(logLevel: string, logFile: string)

  datatype TitleSection = TitleSection(collect: bool, domain: string, cache: string)

  /** The batch switch the driver sets; the configuration struct itself declares no such section. */
  datatype BatchSection = BatchSection(mode: bool)

  class Config {
    var matomo: MatomoSection
    var log: LogSection
    var agent: AgentSection
    var title: TitleSection
    var batch: BatchSection

    constructor (matomo: MatomoSection, log: LogSection, agent: AgentSection, title: TitleSection, batch: BatchSection)
      ensures this.matomo == matomo && this.log == log && this.agent == agent
      ensures this.title == title && this.batch == batch
    {
      this.matomo := matomo;
      this.log := log;
      this.agent := agent;
      this.title := title;
      this.batch := batch;
    }
  }
}
