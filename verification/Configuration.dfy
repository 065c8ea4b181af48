/** The fields of pkg/config's StaticConfig that the modelled code reads; `rest` stands for all others. */
module Configuration {
  datatype StaticConfig = StaticConfig(
    authorizationURL: string,
    certificateAuthority: string,
    tlsMinVersion: string,
    tlsCipherSuites: seq<string>,
    oauthScopes: seq<string>,
    disableDynamicClientRegistration: bool,
    logFile: string,
    rest: string)
}
