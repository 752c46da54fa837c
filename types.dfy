/** The entities shared by every part of the reconciliation engine. */
module Types {

  /** A declared record as the literal parser builds it: attribute name to value
      (`sub_domain`, `record_type`, `record_line`, `value` and any extra attributes). */
  type Record = map<string, string>

  /** The opaque id the provider gives a record. The provider never returns an
      empty id, so every id is truthy where the source tests one. */
  type ProviderId = s: string | s != [] witness "0"

  /** A record as the provider lists it. */
  datatype ProviderRecord = ProviderRecord(
    id: ProviderId,
    name: string,
    rtype: string,
    line: string,
    value: string,
    enabled: string)

  /** The exceptions the engine raises. */
  datatype Error =
    | RecordTooShort             // a record literal with fewer than 3 tokens
    | MalformedAttribute         // an extra token that is not `attr:value`
    | MissingKey(key: string)    // a record attribute read while matching is absent
    | NoNewRecords               // creating without a (non-empty) `new` option
    | AlreadyExists(domain: string, record: Record)  // strict mode: a new record is live
    | NotExist(domain: string, record: Record)       // strict mode: an old record is not live
    | MissingLoginToken          // no `login_token` option in section `auth`
    | NoSuchSection(name: string)  // a provider domain without a configuration section
    | UnknownDomain              // a configured domain the provider does not have
    | BadArguments               // not exactly one action flag
}
