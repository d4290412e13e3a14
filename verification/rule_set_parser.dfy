/** Parsing of a rule set: dispatch on the content type, with JSON read as
    YAML, and detection of an empty input. The YAML decoder and the mapping
    of the decoded document onto a rule set are foreign and given as
    functions; the reader is the byte sequence it yields. */
module RuleSetParser {
  import opened Heimdall

  /** What the YAML decoder makes of an input: a document, end of input
      (an error that is io.EOF), or any other decoding error. */
  datatype YamlOutcome = Document(raw: Config) | EndOfInput | Malformed(err: Error)

  type YamlDecoder = seq<bv8> -> YamlOutcome

  /** DecodeConfig: fills a rule set from a document, reporting an error
      alongside whatever it filled in. */
  type RuleSetDecoder<R> = Config -> (R, Option<Error>)

  /** The pair ParseRules returns: a rule set or nil, and an error or nil. */
  datatype Parsed<R> = Parsed(ruleSet: Option<R>, err: Option<Error>)

  const ApplicationJson: string := "application/json"
  const ApplicationYaml: string := "application/yaml"

  /** parseYAML: end of input is the empty-rule-set error, any other
      decoding error is returned unchanged with no rule set, and a decoded
      document always yields a rule set together with whatever error
      DecodeConfig reports. */
  function ParseYaml<R>(input: seq<bv8>, yaml: YamlDecoder, decodeConfig: RuleSetDecoder<R>): (r: Parsed<R>)
    ensures r.ruleSet.Some? <==> yaml(input).Document?
    ensures yaml(input).Document? ==> (r.ruleSet.value, r.err) == decodeConfig(yaml(input).raw)
    ensures yaml(input).EndOfInput? ==> r.err == Some(EmptyRuleSet)
    ensures yaml(input).Malformed? ==> r.err == Some(yaml(input).err)
  {
    match yaml(input)
    case EndOfInput => Parsed(None, Some(EmptyRuleSet))
    case Malformed(e) => Parsed(None, Some(e))
    case Document(raw) =>
      var (ruleSet, err) := decodeConfig(raw);
      Parsed(Some(ruleSet), err)
  }

  /** ParseRules: JSON and YAML content go the YAML way; for any other
      content type there is never a rule set, and the error is the
      empty-rule-set error when the input is empty and an internal error
      naming the content type otherwise. */
  function ParseRules<R>(contentType: string, input: seq<bv8>, yaml: YamlDecoder,
                         decodeConfig: RuleSetDecoder<R>): (r: Parsed<R>)
    ensures contentType in {ApplicationJson, ApplicationYaml} ==> r == ParseYaml(input, yaml, decodeConfig)
    ensures contentType !in {ApplicationJson, ApplicationYaml} ==> r.ruleSet.None? && r.err.Some?
    ensures contentType !in {ApplicationJson, ApplicationYaml} ==>
      (r.err == Some(EmptyRuleSet) <==> |input| == 0)
    ensures contentType !in {ApplicationJson, ApplicationYaml} && |input| > 0 ==>
      Is(r.err.value, Internal) && r.err.value.reason == UnsupportedContentType(contentType)
  {
    if contentType == ApplicationJson || contentType == ApplicationYaml then
      ParseYaml(input, yaml, decodeConfig)
    else if |input| == 0 then
      // the one-byte probe read reports end of input
      Parsed(None, Some(EmptyRuleSet))
    else
      Parsed(None, Some(Chain(Internal, UnsupportedContentType(contentType), None, None)))
  }

  /** JSON content is handled exactly as YAML content. */
  lemma JsonIsParsedAsYaml<R>(input: seq<bv8>, yaml: YamlDecoder, decodeConfig: RuleSetDecoder<R>)
    ensures ParseRules(ApplicationJson, input, yaml, decodeConfig) == ParseRules(ApplicationYaml, input, yaml, decodeConfig)
  {
  }

  /** Whatever the content type, an empty input on which the YAML decoder
      reports end of input is the empty-rule-set condition and never an
      internal error. */
  lemma EmptyInputIsEmptyRuleSet<R>(contentType: string, yaml: YamlDecoder, decodeConfig: RuleSetDecoder<R>)
    requires yaml([]) == EndOfInput
    ensures ParseRules(contentType, [], yaml, decodeConfig) == Parsed(None, Some(EmptyRuleSet))
  {
  }

  /** ParseRules never returns neither a rule set nor an error. */
  lemma NoRuleSetMeansError<R>(contentType: string, input: seq<bv8>, yaml: YamlDecoder, decodeConfig: RuleSetDecoder<R>)
    ensures ParseRules(contentType, input, yaml, decodeConfig).ruleSet.Some?
         || ParseRules(contentType, input, yaml, decodeConfig).err.Some?
  {
  }
}
