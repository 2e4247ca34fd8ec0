/** The InfluxDB datasource plugin spec of the Go SDK: how it is checked, and how decoding it into
    a variable keeps the variable unchanged when the decoded spec is not valid. */
module InfluxDBSpec {
  import opened Base

  const VersionV1 := "v1"
  const VersionV3 := "v3"

  /** The spec; `hasProxy` stands for a non-nil proxy, whose contents are not checked here. */
  datatype PluginSpec = PluginSpec(directUrl: string, hasProxy: bool, version: string,
                                   database: string, organization: string, bucket: string)

  /** What a valid spec is: exactly one of a direct URL and a proxy, and the version's own fields. */
  predicate Valid(s: PluginSpec) {
    (s.directUrl != "") != s.hasProxy
    && ((s.version == VersionV1 && s.database != "")
        || (s.version == VersionV3 && s.organization != "" && s.bucket != ""))
  }

  /** validate: the first failed check, in order; `None` when all pass. */
  function Validate(s: PluginSpec): (err: Option<string>)
    ensures err.None? <==> Valid(s)
    ensures s.directUrl == "" && !s.hasProxy ==> err == Some("directUrl or proxy cannot be empty")
    ensures s.directUrl != "" && s.hasProxy ==> err == Some("at most directUrl or proxy must be configured")
    ensures (s.directUrl != "") != s.hasProxy && s.version != VersionV1 && s.version != VersionV3 ==>
      err == Some("version must be either 'v1' or 'v3'")
    ensures (s.directUrl != "") != s.hasProxy && s.version == VersionV1 && s.database == "" ==>
      err == Some("database is required for InfluxDB v1.8")
    ensures (s.directUrl != "") != s.hasProxy && s.version == VersionV3 && s.organization == "" ==>
      err == Some("organization is required for InfluxDB v3")
    ensures (s.directUrl != "") != s.hasProxy && s.version == VersionV3 && s.organization != "" && s.bucket == "" ==>
      err == Some("bucket is required for InfluxDB v3")
  {
    if |s.directUrl| == 0 && !s.hasProxy then Some("directUrl or proxy cannot be empty")
    else if |s.directUrl| > 0 && s.hasProxy then Some("at most directUrl or proxy must be configured")
    else if s.version != VersionV1 && s.version != VersionV3 then Some("version must be either 'v1' or 'v3'")
    else if s.version == VersionV1 && |s.database| == 0 then Some("database is required for InfluxDB v1.8")
    else if s.version == VersionV3 && |s.organization| == 0 then Some("organization is required for InfluxDB v3")
    else if s.version == VersionV3 && |s.bucket| == 0 then Some("bucket is required for InfluxDB v3")
    else None
  }

  /** A version-1 spec needs no organization or bucket, and a version-3 spec no database. */
  lemma VersionFieldsIndependent(s: PluginSpec, database: string, organization: string, bucket: string)
    ensures s.version == VersionV1 ==>
      Validate(s.(organization := organization, bucket := bucket)).None? == Validate(s).None?
    ensures s.version == VersionV3 ==> Validate(s.(database := database)).None? == Validate(s).None?
  {
  }

  /** A variable of spec type, the receiver of the decoding methods. */
  class SpecVar {
    var spec: PluginSpec

    constructor (initial: PluginSpec)
      ensures spec == initial
    {
      spec := initial;
    }

    /** UnmarshalJSON: decodes into a temporary, validates it, and only then assigns the receiver.
        `decoded` is what the JSON decoder gives, or its error. */
    method UnmarshalJSON(decoded: Result<PluginSpec>) returns (err: Option<string>)
      modifies this
      ensures decoded.Err? ==> err == Some(decoded.msg) && spec == old(spec)
      ensures decoded.Ok? ==> err == Validate(decoded.value)
      ensures err.Some? ==> spec == old(spec)
      ensures err.None? ==> spec == decoded.value && Valid(spec)
    {
      if decoded.Err? {
        return Some(decoded.msg);
      }
      var tmp := decoded.value;
      var e := Validate(tmp);
      if e.Some? {
        return e;
      }
      spec := tmp;
      return None;
    }
  }

  /** Decoding a valid spec and decoding an invalid one after it leaves the valid one in place. */
  method DecodeTwice(good: PluginSpec, bad: PluginSpec) returns (v: SpecVar)
    requires Valid(good) && !Valid(bad)
    ensures v.spec == good
  {
    v := new SpecVar(PluginSpec("", false, "", "", "", ""));
    var e1 := v.UnmarshalJSON(Ok(good));
    var e2 := v.UnmarshalJSON(Ok(bad));
  }
}
