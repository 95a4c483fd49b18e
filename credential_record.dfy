/** The credentials file `/wifi_credentials.txt`: the network name on the first
    line, the password on the second, each written with `println`. */
module CredentialRecord {
  import opened ArduinoText

  /** A network identity as the controller holds it (`wifi_ssid`, `wifi_password`). */
  datatype Credentials = Credentials(ssid: string, password: string)

  /** A field that survives a write and a read unchanged: one line, already trimmed. */
  predicate Clean(field: string) {
    Trimmed(field) && '\n' !in field
  }

  /** The success result of the read: both trimmed fields are non-empty. */
  predicate IsValid(c: Credentials) {
    c.ssid != [] && c.password != []
  }

  /** What `_writeWiFiCredentials` puts in the file: `ssid` CR LF `password` CR LF. */
  function Encode(c: Credentials): string
  {
    Println(c.ssid) + Println(c.password)
  }

  /** The record ends in a line feed and holds exactly two line feeds more
      than its fields: two line-feed-free fields make exactly two lines. */
  lemma EncodeLineFeeds(c: Credentials)
    ensures var s := Encode(c); |s| == |c.ssid| + |c.password| + 4 && s[|s| - 1] == '\n'
    ensures multiset(Encode(c))['\n'] == multiset(c.ssid)['\n'] + multiset(c.password)['\n'] + 2
  {
  }

  /** The parsing half of `_readWiFiCredentials`: two `readStringUntil('\n')`
      calls, each result trimmed. Whatever follows the second line is never read. */
  function Decode(content: string): (c: Credentials)
    ensures Clean(c.ssid) && Clean(c.password)
  {
    var (first, afterFirst) := ReadStringUntil(content, '\n');
    var (second, _) := ReadStringUntil(afterFirst, '\n');
    TrimKeepsAbsence(first, '\n');
    TrimKeepsAbsence(second, '\n');
    Credentials(Trim(first), Trim(second))
  }

  /** Only the first two lines matter, each up to its line feed. */
  lemma DecodeTwoLines(first: string, second: string, tail: string)
    requires '\n' !in first && '\n' !in second
    ensures Decode(first + "\n" + second + "\n" + tail) == Credentials(Trim(first), Trim(second))
  {
    var content := first + "\n" + second + "\n" + tail;
    assert content == first + ['\n'] + (second + ['\n'] + tail);
    ReadStringUntilSplits(first, '\n', second + ['\n'] + tail);
    ReadStringUntilSplits(second, '\n', tail);
  }

  /** Writing then reading gives back the trimmed fields, whatever follows the
      record, as long as neither field holds a line feed. */
  lemma DecodeEncode(c: Credentials, tail: string)
    requires '\n' !in c.ssid && '\n' !in c.password
    ensures Decode(Encode(c) + tail) == Credentials(Trim(c.ssid), Trim(c.password))
  {
    assert Encode(c) + tail == (c.ssid + ['\r']) + "\n" + (c.password + ['\r']) + "\n" + tail;
    DecodeTwoLines(c.ssid + ['\r'], c.password + ['\r'], tail);
    TrimDropsCarriageReturn(c.ssid);
    TrimDropsCarriageReturn(c.password);
  }

  /** The exact round trip: clean fields are read back as written, and the read
      succeeds exactly when both are non-empty. */
  lemma DecodeEncodeClean(c: Credentials)
    requires Clean(c.ssid) && Clean(c.password)
    ensures Decode(Encode(c)) == c
    ensures IsValid(Decode(Encode(c))) <==> c.ssid != [] && c.password != []
  {
    var ssidLine, passwordLine := c.ssid + ['\r'], c.password + ['\r'];
    assert Encode(c) == ssidLine + "\n" + passwordLine + "\n" + [];
    DecodeTwoLines(ssidLine, passwordLine, []);
    TrimDropsCarriageReturn(c.ssid);
    TrimDropsCarriageReturn(c.password);
    TrimmedIsFixpoint(c.ssid);
    TrimmedIsFixpoint(c.password);
  }

  /** A file holding a single line, with or without its line feed, has an
      empty password and is not a valid record. */
  lemma SingleLineIsInvalid(line: string)
    requires '\n' !in line
    ensures Decode(line).password == [] && !IsValid(Decode(line))
    ensures Decode(line + "\n").password == [] && !IsValid(Decode(line + "\n"))
  {
    TrimBlank([]);
    assert line + "\n" == line + ['\n'] + [];
    ReadStringUntilSplits(line, '\n', []);
  }

  /** A blank second line (only whitespace) makes the record invalid. */
  lemma BlankPasswordIsInvalid(first: string, second: string, tail: string)
    requires '\n' !in first && '\n' !in second
    requires forall k :: 0 <= k < |second| ==> IsSpace(second[k])
    ensures !IsValid(Decode(first + "\n" + second + "\n" + tail))
  {
    DecodeTwoLines(first, second, tail);
    TrimBlank(second);
  }

  /** A line feed inside the network name shifts the lines: storing name
      `a` LF `b` with any password is read back, successfully, as the different
      identity (`a`, `b`). */
  lemma LineFeedInSsidIsMisread(a: string, b: string, password: string)
    requires Clean(a) && Clean(b) && a != [] && b != []
    ensures var stored := Credentials(a + "\n" + b, password);
            Decode(Encode(stored)) == Credentials(a, b) && IsValid(Decode(Encode(stored)))
            && Decode(Encode(stored)) != stored
  {
    var stored := Credentials(a + "\n" + b, password);
    assert Encode(stored) == a + "\n" + (b + ['\r']) + "\n" + Println(password);
    DecodeTwoLines(a, b + ['\r'], Println(password));
    TrimmedIsFixpoint(a);
    TrimDropsCarriageReturn(b);
    TrimmedIsFixpoint(b);
    assert |stored.ssid| > |a|;
  }

  /** A line feed inside the password cuts it short: storing password `a` LF
      `b` under a clean name is read back, successfully, as the password `a`,
      and `b` is lost. */
  lemma LineFeedInPasswordIsTruncated(ssid: string, a: string, b: string)
    requires Clean(ssid) && Clean(a) && ssid != [] && a != []
    ensures var stored := Credentials(ssid, a + "\n" + b);
            Decode(Encode(stored)) == Credentials(ssid, a) && IsValid(Decode(Encode(stored)))
            && Decode(Encode(stored)) != stored
  {
    var stored := Credentials(ssid, a + "\n" + b);
    assert Encode(stored) == (ssid + ['\r']) + "\n" + a + "\n" + Println(b);
    DecodeTwoLines(ssid + ['\r'], a, Println(b));
    TrimDropsCarriageReturn(ssid);
    TrimmedIsFixpoint(ssid);
    TrimmedIsFixpoint(a);
    assert |stored.password| > |a|;
  }
}
