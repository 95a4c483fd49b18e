/** Whole boot cycles: an operation ends in `ESP.restart()`, the files survive,
    and the next `setup()` mounts them (here, successfully) and runs `begin`
    on a fresh controller. */
module Scenarios {
  import opened ArduinoText
  import opened CredentialRecord
  import opened Platform
  import opened WebServer

  /** `setup()` after a restart: mount the surviving files, construct the
      controller, run the mode decision. */
  method PowerCycle(files: map<string, string>, polls: seq<bool>) returns (server: ControllerWebServer)
    requires |polls| >= StatusReadings
    ensures fresh(server) && fresh(server.board) && server.board.files == files
    ensures server.board.mounted && !server.board.restarted
    ensures server.Valid()
    ensures server.mode == if CredentialsFile in files && IsValid(Decode(files[CredentialsFile]))
                              && polls[WaitAttempts(polls) + 1]
                           then Station(server.wifiSsid, server.wifiPassword)
                           else AccessPoint(AccessPointSsid)
    ensures CredentialsFile in files ==>
              Credentials(server.wifiSsid, server.wifiPassword) == Decode(files[CredentialsFile])
  {
    var board := new Board(files, true);
    server := new ControllerWebServer(board);
    server.Begin(false, polls);
  }

  /** `POST /savewifi` with both fields, then the restart it causes: the next
      boot joins the submitted network, trimmed, when both trimmed values are
      non-empty and the connection comes up; otherwise it hosts the access
      point (an empty value is accepted by the handler but not by the read). */
  method SaveThenBoot(files: map<string, string>, ssid: string, password: string, polls: seq<bool>)
    returns (mode: WiFiMode)
    requires '\n' !in ssid && '\n' !in password
    requires |polls| >= StatusReadings
    ensures mode == if Trim(ssid) != [] && Trim(password) != [] && polls[WaitAttempts(polls) + 1]
                    then Station(Trim(ssid), Trim(password))
                    else AccessPoint(AccessPointSsid)
  {
    var board := new Board(files, true);
    var server := new ControllerWebServer(board);
    var response := server.HandleSaveWiFi(map["ssid" := ssid, "password" := password], false);
    assert response == Sent(200) && board.restarted;
    DecodeEncode(Credentials(ssid, password), []);
    assert Encode(Credentials(ssid, password)) + [] == Encode(Credentials(ssid, password));
    var next := PowerCycle(board.files, polls);
    mode := next.mode;
  }

  /** `POST /clearwifi` on a device that has a credentials file, then the
      restart it causes: the next boot always hosts the access point. */
  method ClearThenBoot(files: map<string, string>, polls: seq<bool>) returns (mode: WiFiMode)
    requires CredentialsFile in files
    requires |polls| >= StatusReadings
    ensures mode == AccessPoint(AccessPointSsid)
  {
    var board := new Board(files, true);
    var server := new ControllerWebServer(board);
    var response := server.HandleClearWiFi(false);
    assert response == Unsent && board.restarted;
    var next := PowerCycle(board.files, polls);
    mode := next.mode;
  }

  /** A successful update restarts into the identity that was in memory: the
      rewritten file is read back as exactly that identity. */
  method UpdateThenBoot(files: map<string, string>, polls: seq<bool>) returns (before: Credentials, after: Credentials)
    requires |polls| >= StatusReadings
    ensures before == after
  {
    var server := PowerCycle(files, polls);
    before := Credentials(server.wifiSsid, server.wifiPassword);
    server.OnOTAEnd(true, false);
    var next := PowerCycle(server.board.files, polls);
    after := Credentials(next.wifiSsid, next.wifiPassword);
  }
}
