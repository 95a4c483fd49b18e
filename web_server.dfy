/** `ControllerWebServerClass`: the stored credentials, the boot decision between
    station and access-point mode, the two credential endpoints, the OTA
    completion callback and the page template substitution. */
module WebServer {
  import opened CredentialRecord
  import opened Platform

  const CredentialsFile: string := "/wifi_credentials.txt"
  const AccessPointSsid: string := "ESP32_AP"
  /** The connection wait gives up after this many one-second delays. */
  const MaxAttempts: nat := 10
  /** Every `WiFi.status()` reading `_connectToWiFi` can take: one per loop test
      (the test that ends the loop included) and one after the loop. */
  const StatusReadings: nat := MaxAttempts + 2

  /** The radio's role: off before `begin`, joined to a network with the given
      identity (`WiFi.begin`), or hosting the access point (`WiFi.softAP`). */
  datatype WiFiMode = Off | Station(ssid: string, password: string) | AccessPoint(ssid: string)

  /** What an HTTP handler got onto the wire: a status code, or nothing when the
      device restarted before the reply was sent. */
  datatype Response = Sent(code: nat) | Unsent

  /** Number of one-second waits of the connection loop when `polls[i]` is the
      `i`-th reading of `WiFi.status() == WL_CONNECTED`: the first connected
      reading, or the budget when none of the first ten is connected. */
  function WaitAttempts(polls: seq<bool>): (k: nat)
    requires |polls| >= StatusReadings
    ensures k <= MaxAttempts
    ensures k < MaxAttempts ==> polls[k]
    ensures forall j :: 0 <= j < k ==> !polls[j]
  {
    AttemptsFrom(polls, 0)
  }

  function AttemptsFrom(polls: seq<bool>, attempts: nat): (k: nat)
    requires attempts <= MaxAttempts < |polls|
    ensures attempts <= k <= MaxAttempts
    ensures k < MaxAttempts ==> polls[k]
    ensures forall j :: attempts <= j < k ==> !polls[j]
    decreases MaxAttempts - attempts
  {
    if polls[attempts] || attempts == MaxAttempts then attempts
    else AttemptsFrom(polls, attempts + 1)
  }

  /** The identity held after `_readWiFiCredentials` on a volume holding
      `files`: the parsed record when the file opens, `current` otherwise. */
  function Loaded(files: map<string, string>, mounted: bool, fault: bool, current: Credentials): (c: Credentials)
    ensures Clean(current.ssid) && Clean(current.password) ==> Clean(c.ssid) && Clean(c.password)
  {
    if mounted && CredentialsFile in files && !fault then Decode(files[CredentialsFile]) else current
  }

  /** `_readWiFiCredentials` returns true: the file opens and both parsed
      fields are non-empty. */
  predicate LoadedValid(files: map<string, string>, mounted: bool, fault: bool)
  {
    mounted && CredentialsFile in files && !fault && IsValid(Decode(files[CredentialsFile]))
  }

  class ControllerWebServer {
    var wifiSsid: string
    var wifiPassword: string
    var mode: WiFiMode
    const board: Board

    /** The in-memory identity only ever comes from the credentials file, so it
        is always a pair of clean lines. */
    ghost predicate Valid()
      reads this
    {
      Clean(wifiSsid) && Clean(wifiPassword)
    }

    constructor (board: Board)
      ensures this.board == board && Valid()
      ensures wifiSsid == [] && wifiPassword == [] && mode == Off
    {
      this.board := board;
      wifiSsid := [];
      wifiPassword := [];
      mode := Off;
    }

    /** `_readWiFiCredentials(ssid, password)`: the two reference parameters are
        passed in and their new values handed back. */
    method ReadWiFiCredentials(ssid: string, password: string, fault: bool)
      returns (ok: bool, ssid': string, password': string)
      requires !board.restarted
      ensures Credentials(ssid', password') == Loaded(board.files, board.mounted, fault, Credentials(ssid, password))
      ensures ok <==> board.CanOpenForRead(CredentialsFile, fault) && ssid' != [] && password' != []
      ensures ok == LoadedValid(board.files, board.mounted, fault)
    {
      var isOpen, content := board.Read(CredentialsFile, fault);
      if !isOpen {
        return false, ssid, password;
      }
      var record := Decode(content);
      ssid', password' := record.ssid, record.password;
      ok := ssid' != [] && password' != [];
    }

    /** `_startAPMode`, as a change of mode. */
    method StartAPMode()
      requires !board.restarted
      modifies this`mode
      ensures mode == AccessPoint(AccessPointSsid)
    {
      mode := AccessPoint(AccessPointSsid);
    }

    /** `_connectToWiFi`: join the network, wait while the status is not
        connected for at most ten attempts, then fall back to the access point
        unless the status read after the loop is connected. Returns the number
        of waits. */
    method ConnectToWiFi(ssid: string, password: string, polls: seq<bool>) returns (attempts: nat)
      requires !board.restarted && |polls| >= StatusReadings
      modifies this`mode
      ensures attempts == WaitAttempts(polls) <= MaxAttempts
      ensures mode == if polls[attempts + 1] then Station(ssid, password) else AccessPoint(AccessPointSsid)
    {
      mode := Station(ssid, password);
      attempts := 0;
      while !polls[attempts] && attempts < MaxAttempts
        invariant attempts <= MaxAttempts
        invariant forall j :: 0 <= j < attempts ==> !polls[j]
        decreases MaxAttempts - attempts
      {
        attempts := attempts + 1;
      }
      if !polls[attempts + 1] {
        StartAPMode();
      }
    }

    /** `_writeWiFiCredentials`. */
    method WriteWiFiCredentials(ssid: string, password: string, fault: bool) returns (ok: bool)
      requires !board.restarted
      modifies board`files
      ensures ok == old(board.CanOpenForWrite(fault))
      ensures board.files == if ok then old(board.files)[CredentialsFile := Encode(Credentials(ssid, password))]
                             else old(board.files)
    {
      ok := board.Write(CredentialsFile, Encode(Credentials(ssid, password)), fault);
    }

    /** The mode decision of `begin`: read the stored identity into the fields,
        then connect with it, or start the access point when the read fails. */
    method Begin(readFault: bool, polls: seq<bool>)
      requires Valid() && !board.restarted && |polls| >= StatusReadings
      modifies this`wifiSsid, this`wifiPassword, this`mode
      ensures Valid()
      ensures Credentials(wifiSsid, wifiPassword)
                == Loaded(board.files, board.mounted, readFault, old(Credentials(wifiSsid, wifiPassword)))
      ensures mode == if LoadedValid(board.files, board.mounted, readFault) && polls[WaitAttempts(polls) + 1]
                      then Station(wifiSsid, wifiPassword)
                      else AccessPoint(AccessPointSsid)
    {
      var ok, ssid, password := ReadWiFiCredentials(wifiSsid, wifiPassword, readFault);
      wifiSsid, wifiPassword := ssid, password;
      if ok {
        var _ := ConnectToWiFi(wifiSsid, wifiPassword, polls);
      } else {
        StartAPMode();
      }
    }

    /** `_onOTAEnd`: after a successful update, rewrite the credentials file from
        the in-memory identity and unmount; after a failed one, do nothing. */
    method OnOTAEnd(success: bool, fault: bool)
      requires Valid() && !board.restarted
      modifies board`files, board`mounted
      ensures !success ==> board.files == old(board.files) && board.mounted == old(board.mounted)
      ensures success ==> !board.mounted
      ensures success && !old(board.CanOpenForWrite(fault)) ==> board.files == old(board.files)
      ensures success && old(board.CanOpenForWrite(fault)) ==>
                board.files == old(board.files)[CredentialsFile := Encode(Credentials(wifiSsid, wifiPassword))]
                && Decode(board.files[CredentialsFile]) == Credentials(wifiSsid, wifiPassword)
    {
      if success {
        var record := Credentials(wifiSsid, wifiPassword);
        var written := WriteWiFiCredentials(wifiSsid, wifiPassword, fault);
        board.Unmount();
        if written {
          assert board.files[CredentialsFile] == Encode(record);
          DecodeEncodeClean(record);
        }
      }
    }

    /** `POST /savewifi`: 400 unless both form fields are present (empty values
        are accepted), 500 when the file cannot be written, otherwise 200,
        unmount and restart. */
    method HandleSaveWiFi(args: map<string, string>, fault: bool) returns (response: Response)
      requires !board.restarted
      modifies board`files, board`mounted, board`restarted
      ensures !("ssid" in args && "password" in args) ==>
                response == Sent(400) && board.files == old(board.files)
                && board.mounted == old(board.mounted) && !board.restarted
      ensures "ssid" in args && "password" in args && !old(board.CanOpenForWrite(fault)) ==>
                response == Sent(500) && board.files == old(board.files)
                && board.mounted == old(board.mounted) && !board.restarted
      ensures "ssid" in args && "password" in args && old(board.CanOpenForWrite(fault)) ==>
                response == Sent(200)
                && board.files == old(board.files)[CredentialsFile := Encode(Credentials(args["ssid"], args["password"]))]
                && !board.mounted && board.restarted
    {
      if "ssid" in args && "password" in args {
        var ssid, password := args["ssid"], args["password"];
        var written := WriteWiFiCredentials(ssid, password, fault);
        if written {
          response := Sent(200);
          board.Unmount();
          board.Restart();
        } else {
          response := Sent(500);
        }
      } else {
        response := Sent(400);
      }
    }

    /** `POST /clearwifi`: when the file is removed, erase the station
        configuration and restart, before the 200 could be sent; otherwise 500. */
    method HandleClearWiFi(fault: bool) returns (response: Response)
      requires !board.restarted
      modifies board`files, board`stationConfigErased, board`restarted
      ensures old(board.CanRemove(CredentialsFile, fault)) ==>
                response == Unsent && board.files == old(board.files) - {CredentialsFile}
                && board.stationConfigErased && board.restarted
      ensures !old(board.CanRemove(CredentialsFile, fault)) ==>
                response == Sent(500) && board.files == old(board.files)
                && board.stationConfigErased == old(board.stationConfigErased) && !board.restarted
    {
      var removed := board.Remove(CredentialsFile, fault);
      if removed {
        board.EraseStationConfig();
        board.Restart();
        response := Unsent;
      } else {
        response := Sent(500);
      }
    }

    /** `_htmlProcessor`: the `%WIFI_SSID%` placeholder becomes the network
        name; every other placeholder becomes empty. The password is never
        substituted. */
    function HtmlProcessor(key: string): (r: string)
      reads this
      ensures key == "WIFI_SSID" ==> r == wifiSsid
      ensures key != "WIFI_SSID" ==> r == []
    {
      if key == "WIFI_SSID" then wifiSsid else []
    }
  }
}
