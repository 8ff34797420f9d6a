/** One log and one lock for each partition a broker has touched. */
module Partitions {
  import opened Codec
  import opened Recovery
  import opened Storage
  import opened Naming

  class Mutex {
    constructor () {}
  }

  type Directory = map<string, File>

  /** The key is a partition's, and the log is over the file of that partition. */
  ghost predicate Keeps(dir: Directory, k: string, l: Log) {
    exists t: string, p: int :: t != "" && k == LogKey(t, p) && FileName(t, p) in dir && l.f == dir[FileName(t, p)]
  }

  /** Every open log is kept under its key, and no log is kept under two. */
  ghost predicate Kept(dir: Directory, logs: map<string, Log>) {
    && (forall k :: k in logs ==> Keeps(dir, k, logs[k]))
    && (forall a, b :: a in logs && b in logs && logs[a] == logs[b] ==> a == b)
  }

  ghost predicate Separate(dir: Directory) {
    forall a, b :: a in dir && b in dir && dir[a] == dir[b] ==> a == b
  }

  lemma AddFile(dir: Directory, logs: map<string, Log>, name: string, f: File)
    requires Kept(dir, logs) && Separate(dir) && name !in dir && f !in dir.Values
    ensures Kept(dir[name := f], logs) && Separate(dir[name := f])
  {
    hide LogKey, FileName;
    var dir' := dir[name := f];
    forall k | k in logs
      ensures Keeps(dir', k, logs[k])
    {
      assert Keeps(dir, k, logs[k]);
      var t: string, p: int :| t != "" && k == LogKey(t, p) && FileName(t, p) in dir && logs[k].f == dir[FileName(t, p)];
      assert dir'[FileName(t, p)] == dir[FileName(t, p)];
    }
  }

  lemma AddLog(dir: Directory, logs: map<string, Log>, topic: string, p: int, l: Log)
    requires Kept(dir, logs) && topic != "" && FileName(topic, p) in dir && l.f == dir[FileName(topic, p)]
    requires l !in logs.Values
    ensures Kept(dir, logs[LogKey(topic, p) := l])
  {
    hide LogKey, FileName;
    var logs' := logs[LogKey(topic, p) := l];
    forall k | k in logs'
      ensures Keeps(dir, k, logs'[k])
    {
      if k != LogKey(topic, p) {
        assert Keeps(dir, k, logs[k]);
      }
    }
  }

  class Broker {
    const crc: Checksum
    var dir: Directory
    var logs: map<string, Log>
    var locks: map<string, Mutex>

    ghost predicate Valid()
      reads this
    {
      && Kept(dir, logs) && Separate(dir)
      && (forall a, b :: a in locks && b in locks && locks[a] == locks[b] ==> a == b)
    }

    constructor (crc: Checksum, dir: Directory)
      requires Separate(dir)
      ensures Valid() && this.crc == crc && this.dir == dir && logs == map[] && locks == map[]
    {
      this.crc := crc;
      this.dir := dir;
      logs, locks := map[], map[];
    }

    /** The log of a partition: the open one, or the one its file holds, recovered. The system may refuse to open or
        create the file, or to truncate it; then nothing changes but perhaps a new empty file. */
    method LogFor(topic: string, p: int, opens: bool, truncates: bool) returns (ok: bool, l: Log?)
      requires Valid()
      modifies this`dir, this`logs, if FileName(topic, p) in dir then {dir[FileName(topic, p)]} else {}
      ensures Valid()
      ensures var key, name := LogKey(topic, p), FileName(topic, p);
              if topic == "" then !ok && dir == old(dir) && logs == old(logs)
              else if key in old(logs) then ok && l == old(logs)[key] && dir == old(dir) && logs == old(logs)
              else if !opens then !ok && dir == old(dir) && logs == old(logs)
              else
                && name in dir && (name in old(dir) ==> dir == old(dir))
                && (name !in old(dir) ==> fresh(dir[name]) && dir == old(dir)[name := dir[name]])
                && (ok ==> l != null && fresh(l) && l.f == dir[name] && l.crc == crc && l.Valid() && l.Tight())
                && var found := if name in old(dir) then old(dir[name].data) else [];
                && (ok <==> truncates || Leftover(crc, found) == [])
                && (ok ==> l.recs == Scan(crc, found) && l.f.data == Recovered(crc, found))
                && logs == (if ok then old(logs)[key := l] else old(logs))
      ensures FileName(topic, p) in old(dir) && (topic == "" || LogKey(topic, p) in old(logs) || !opens) ==>
                old(dir)[FileName(topic, p)].data == old(dir[FileName(topic, p)].data)
    {
      hide Kept, Separate, Keeps, LogKey, FileName, Frames, Scan, Leftover, IndexOf, NextOf, Recovered;
      if topic == "" {
        return false, null;
      }
      var key := LogKey(topic, p);
      if key in logs {
        return true, logs[key];
      }
      if !opens {
        return false, null;
      }
      var name := FileName(topic, p);
      if name !in dir {
        var f := new File([]);
        AddFile(dir, logs, name, f);
        dir := dir[name := f];
      }
      var lg: Log;
      ok, lg := Log.Open(crc, dir[name], truncates);
      l := lg;
      if ok {
        AddLog(dir, logs, topic, p, lg);
        logs := logs[key := lg];
      }
    }

    /** The lock of a partition, made at first use and the same ever after. */
    method ProduceLock(topic: string, p: int) returns (m: Mutex)
      requires Valid()
      modifies this`locks
      ensures Valid()
      ensures LogKey(topic, p) in locks && m == locks[LogKey(topic, p)]
      ensures if LogKey(topic, p) in old(locks) then locks == old(locks)
              else fresh(m) && locks == old(locks)[LogKey(topic, p) := m]
    {
      var key := LogKey(topic, p);
      if key !in locks {
        var made := new Mutex();
        locks := locks[key := made];
      }
      m := locks[key];
    }
  }

  /** Two partitions share their log or their lock only if they are the same partition; they share the file under it
      exactly when the topics sanitize alike. */
  lemma OneLogEach(b: Broker, t: string, p: int, u: string, q: int)
    requires b.Valid() && LogKey(t, p) in b.logs && LogKey(u, q) in b.logs
    requires LogKey(t, p) in b.locks && LogKey(u, q) in b.locks
    ensures b.logs[LogKey(t, p)] == b.logs[LogKey(u, q)] <==> t == u && p == q
    ensures b.locks[LogKey(t, p)] == b.locks[LogKey(u, q)] <==> t == u && p == q
    ensures b.logs[LogKey(t, p)].f == b.logs[LogKey(u, q)].f <==> Sanitize(t) == Sanitize(u) && p == q
  {
    hide LogKey, FileName, Sanitize;
    LogKeyInjective(t, p, u, q);
    FileNameInjective(t, p, u, q);
    FileOfLog(b, t, p);
    FileOfLog(b, u, q);
  }

  lemma FileOfLog(b: Broker, t: string, p: int)
    requires b.Valid() && LogKey(t, p) in b.logs
    ensures t != "" && FileName(t, p) in b.dir && b.logs[LogKey(t, p)].f == b.dir[FileName(t, p)]
  {
    hide LogKey, FileName, Sanitize;
    var k := LogKey(t, p);
    assert Keeps(b.dir, k, b.logs[k]);
    var t', p' :| t' != "" && k == LogKey(t', p') && FileName(t', p') in b.dir && b.logs[k].f == b.dir[FileName(t', p')];
    LogKeyInjective(t, p, t', p');
  }
}
