/** Reading a guest command back: which action it is, where it goes, and for how long it may run.  The
    reader knows the command lines of the tools and nothing of how they were rendered. */
module CommandReader {
  import opened Wrappers
  import opened Numerals

  /** `limit` is the time limit inside the guest, in seconds. */
  datatype Command = Command(name: string, address: string, port: nat, limit: nat)

  /** A whole text of digits. */
  function ReadNumber(text: string): Option<nat> {
    if StartsWithDigit(text) && ReadDigits(text, 0).1 == "" then Some(ReadDigits(text, 0).0) else None
  }

  function ReadSeconds(text: string): Option<nat> {
    if text != "" && text[|text| - 1] == 's' then ReadNumber(text[..|text| - 1]) else None
  }

  /** What stands before and after the last colon. */
  function AtLastColon(text: string): Option<(string, string)> {
    if text == "" then None
    else
      var n := |text| - 1;
      if text[n] == ':' then Some((text[..n], ""))
      else
        match AtLastColon(text[..n])
        case None => None
        case Some((before, after)) => Some((before, after + [text[n]]))
  }

  /** An address with colons must be bracketed, and only such an address is. */
  function ReadHost(text: string): Option<string> {
    if text == "" then None
    else if text[0] == '[' then
      if |text| > 2 && text[|text| - 1] == ']' && ':' in text[1..|text| - 1] then Some(text[1..|text| - 1]) else None
    else if ':' in text then None
    else Some(text)
  }

  function ReadEndpoint(text: string): Option<(string, nat)> {
    match AtLastColon(text)
    case None => None
    case Some((before, after)) =>
      if ReadHost(before).None? || ReadNumber(after).None? then None
      else Some((ReadHost(before).value, ReadNumber(after).value))
  }

  /** The endpoint of an address that has no path. */
  function ReadUrl(text: string): Option<(string, nat)> {
    if |text| > 8 && text[..7] == "http://" && text[|text| - 1] == '/' then ReadEndpoint(text[7..|text| - 1]) else None
  }

  function At(name: string, endpoint: Option<(string, nat)>, limit: nat): Option<Command> {
    if endpoint.None? then None else Some(Command(name, endpoint.value.0, endpoint.value.1, limit))
  }

  function ReadCommand(argv: seq<string>): Option<Command> {
    if |argv| < 4 || argv[..2] != ["timeout", "--signal=KILL"] || ReadSeconds(argv[2]).None? then None
    else
      var limit := ReadSeconds(argv[2]).value;
      if argv[3] == "nc" then
        if |argv| == 9 && argv[4..6] == ["-vz", "-w"] && ReadNumber(argv[6]) == Some(limit) && ReadNumber(argv[8]).Some?
        then Some(Command("check_tcp_connection", argv[7], ReadNumber(argv[8]).value, limit)) else None
      else if argv[3] == "curl" then
        if |argv| == 15 && argv[4..14] == ["--head", "--silent", "--show-error", "--max-time", "8",
                                           "--connect-timeout", "5", "--proto", "=http", "--"]
        then At("inspect_http_headers", ReadUrl(argv[14]), limit) else None
      else if argv[3] == "openssl" then
        if |argv| == 8 && argv[4..7] == ["s_client", "-brief", "-connect"]
        then At("inspect_tls_certificate", ReadEndpoint(argv[7]), limit) else None
      else None
  }

  // ---------------------------------------------------------------- reading what is written

  lemma ReadsDecimal(n: nat)
    ensures ReadNumber(Decimal(n)) == Some(n)
  {
    DecimalIsDigits(n);
    ReadInvertsDecimal(n, "");
    assert Decimal(n) + "" == Decimal(n);
    assert Decimal(n)[0] in Decimal(n);
  }

  lemma ReadsSeconds(n: nat)
    ensures ReadSeconds(Decimal(n) + "s") == Some(n)
  {
    ReadsDecimal(n);
    assert (Decimal(n) + "s")[..|Decimal(n)|] == Decimal(n);
  }

  lemma {:induction false} LastColonSplits(before: string, after: string)
    requires ':' !in after
    ensures AtLastColon(before + ":" + after) == Some((before, after))
    decreases |after|
  {
    var text := before + ":" + after;
    var n := |text| - 1;
    if after == "" {
      assert text[..n] == before;
    } else {
      var m := |after| - 1;
      assert text[..n] == before + ":" + after[..m];
      assert after == after[..m] + [after[m]];
      LastColonSplits(before, after[..m]);
    }
  }

  lemma ReadsEndpoint(host: string, address: string, port: nat)
    requires ReadHost(host) == Some(address)
    ensures ReadEndpoint(host + ":" + Decimal(port)) == Some((address, port))
  {
    DecimalIsDigits(port);
    ReadsDecimal(port);
    LastColonSplits(host, Decimal(port));
  }

  lemma ReadsUrl(host: string, address: string, port: nat)
    requires ReadHost(host) == Some(address)
    ensures ReadUrl("http://" + host + ":" + Decimal(port) + "/") == Some((address, port))
  {
    var text := "http://" + host + ":" + Decimal(port) + "/";
    ReadsEndpoint(host, address, port);
    assert text[..7] == "http://";
    assert text[7..|text| - 1] == host + ":" + Decimal(port);
  }
}
