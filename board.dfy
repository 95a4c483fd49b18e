/** The device-wide state both core files act on: the LittleFS volume (a map
    from path to contents plus a mounted flag), the ESP restart, and the station
    configuration the WiFi driver keeps. Whether an open or a remove fails for a
    reason outside this model (flash error, out of file handles) is the `fault`
    parameter of each call. */
module Platform {

  class Board {
    var files: map<string, string>
    var mounted: bool
    /** `ESP.restart()` has been called: terminal, nothing after it is observable. */
    var restarted: bool
    /** `WiFi.eraseAP()` has been called. */
    var stationConfigErased: bool

    /** Power-on: `LittleFS.begin()` has either mounted `files` or failed. */
    constructor (files: map<string, string>, mounted: bool)
      ensures this.files == files && this.mounted == mounted
      ensures !restarted && !stationConfigErased
    {
      this.files := files;
      this.mounted := mounted;
      restarted := false;
      stationConfigErased := false;
    }

    /** `LittleFS.open(path, FILE_READ)` yields a file. */
    predicate CanOpenForRead(path: string, fault: bool)
      reads this
    {
      mounted && path in files && !fault
    }

    /** `LittleFS.open(path, FILE_WRITE)` yields a file (creating or truncating it). */
    predicate CanOpenForWrite(fault: bool)
      reads this
    {
      mounted && !fault
    }

    /** `LittleFS.remove(path)` returns true. */
    predicate CanRemove(path: string, fault: bool)
      reads this
    {
      mounted && path in files && !fault
    }

    /** Open for reading and read the whole file. */
    method Read(path: string, fault: bool) returns (ok: bool, content: string)
      ensures ok == CanOpenForRead(path, fault)
      ensures ok ==> content == files[path]
    {
      ok := CanOpenForRead(path, fault);
      content := if ok then files[path] else [];
    }

    /** Open for writing, write `content`, close. */
    method Write(path: string, content: string, fault: bool) returns (ok: bool)
      modifies this`files
      ensures ok == old(CanOpenForWrite(fault))
      ensures files == if ok then old(files)[path := content] else old(files)
    {
      ok := CanOpenForWrite(fault);
      if ok {
        files := files[path := content];
      }
    }

    method Remove(path: string, fault: bool) returns (ok: bool)
      modifies this`files
      ensures ok == old(CanRemove(path, fault))
      ensures files == if ok then old(files) - {path} else old(files)
    {
      ok := CanRemove(path, fault);
      if ok {
        files := files - {path};
      }
    }

    /** `LittleFS.end()`. */
    method Unmount()
      modifies this`mounted
      ensures !mounted
    {
      mounted := false;
    }

    /** `ESP.restart()`. */
    method Restart()
      modifies this`restarted
      ensures restarted
    {
      restarted := true;
    }

    /** `WiFi.eraseAP()`. */
    method EraseStationConfig()
      modifies this`stationConfigErased
      ensures stationConfigErased
    {
      stationConfigErased := true;
    }
  }
}
