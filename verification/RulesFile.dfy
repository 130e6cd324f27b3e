/** The in-place side of `internal/agentrules/writer.go`: a rules file that
    `syncBlock` rewrites, and the digit loop of `parseVersion`. */
module RulesFile {
  import opened Text
  import opened RulesBlock

  method ParseVersionLoop(b: string) returns (n: int)
    ensures n == ParseVersion(b)
  {
    n := 0;
    var i := 0;
    while i < |b|
      invariant 0 <= i <= |b|
      invariant ParseVersion(b) == ParseVersionFrom(b[i..], n)
    {
      assert b[i..][1..] == b[i + 1..];
      if !IsDigit(b[i]) {
        return -1;
      }
      n := Wrap64(n * 10 + (b[i] as int - '0' as int));
      i := i + 1;
    }
  }

  class Rules {
    var file: File

    constructor (file: File)
      ensures this.file == file
    {
      this.file := file;
    }

    method SyncBlock(version: int, url: string, c: Content) returns (changed: bool)
      modifies this
      ensures SyncResult(file, changed) == Sync(old(file), version, url, c)
    {
      if file.Missing? {
        file := Present(ApplyDashboard(Render(version, c), url));
        return true;
      }
      var existing := file.text;
      var m := FindBlock(existing, true);
      if m.None? {
        var buf := TrimRight(existing, TrimmedFromFile);
        if buf != "" {
          buf := buf + "\n\n";
        } else {
          assert buf + "" == buf;
        }
        file := Present(buf + ApplyDashboard(Render(version, c), url));
        return true;
      }
      var f := m.value;
      var installed := ParseVersionLoop(f.digits);
      var effective := url;
      if effective == "" {
        effective := InstalledUrl(f.body, true);
      }
      var urlSatisfied := url == "" || Contains(f.body, LABEL + url);
      if installed == version && NormalizeBody(f.body) == NormalizeBody(c.Text(DEFAULT_URL)) && urlSatisfied {
        return false;
      }
      var replacement := TrimRight(ApplyDashboard(Render(version, c), effective), c => c == '\n');
      file := Present(f.before + replacement + f.after);
      return true;
    }
  }
}
