/**
 The relay's own key and certificate on disk, over any sequence of renewals and process crashes.

 A file being written holds some prefix of its text until the write returns; a rename is atomic.
 */
module RelayCertFiles {
  import opened Wrappers

  datatype Pair = Pair(cert: string, key: string)

  datatype Disk = Disk(cert: Option<string>, key: Option<string>, certTmp: Option<string>, keyTmp: Option<string>)

  /** Where write_relay_cert is in its sequence of file operations. */
  datatype Phase = Idle | WritingCert | WritingKey | Written | KeyInstalled

  /** `renewals` are the pairs ever handed to write_relay_cert; the generations say which of them is installed. */
  datatype State = State(disk: Disk, renewals: seq<Pair>, phase: Phase, keyGeneration: int, certGeneration: int)

  datatype Event =
    | Begin(pair: Pair)
    | CertPrefix(n: nat)    // part of the certificate's temporary file reaches the disk
    | CertWritten
    | KeyPrefix(n: nat)
    | KeyWritten
    | InstallKey
    | InstallCert
    | Crash

  function Latest(s: State): Pair
    requires s.renewals != []
  {
    s.renewals[|s.renewals| - 1]
  }

  predicate Enabled(s: State, e: Event) {
    match e
    case Begin(_) => s.phase == Idle
    case CertPrefix(n) => s.phase == WritingCert && s.renewals != [] && n <= |Latest(s).cert|
    case CertWritten => s.phase == WritingCert && s.renewals != []
    case KeyPrefix(n) => s.phase == WritingKey && s.renewals != [] && n <= |Latest(s).key|
    case KeyWritten => s.phase == WritingKey && s.renewals != []
    case InstallKey => s.phase == Written
    case InstallCert => s.phase == KeyInstalled
    case Crash => true
  }

  function Apply(s: State, e: Event): State
    requires Enabled(s, e)
  {
    match e
    case Begin(pair) => s.(renewals := s.renewals + [pair], phase := WritingCert)
    case CertPrefix(n) => s.(disk := s.disk.(certTmp := Some(Latest(s).cert[..n])))
    case CertWritten => s.(disk := s.disk.(certTmp := Some(Latest(s).cert)), phase := WritingKey)
    case KeyPrefix(n) => s.(disk := s.disk.(keyTmp := Some(Latest(s).key[..n])))
    case KeyWritten => s.(disk := s.disk.(keyTmp := Some(Latest(s).key)), phase := Written)
    case InstallKey =>
      s.(disk := s.disk.(key := s.disk.keyTmp, keyTmp := None), phase := KeyInstalled,
          keyGeneration := |s.renewals| - 1)
    case InstallCert =>
      s.(disk := s.disk.(cert := s.disk.certTmp, certTmp := None), phase := Idle, certGeneration := |s.renewals| - 1)
    case Crash => s.(phase := Idle)
  }

  /** Nothing installed yet, whatever temporary files an earlier process left behind. */
  predicate Fresh(s: State) {
    s.disk.cert.None? && s.disk.key.None? && s.renewals == [] && s.phase == Idle
    && s.keyGeneration == -1 && s.certGeneration == -1
  }

  ghost predicate Legal(start: State, run: seq<Event>)
    decreases |run|, 0
  {
    run == [] || (Legal(start, run[..|run| - 1]) && Enabled(After(start, run[..|run| - 1]), run[|run| - 1]))
  }

  ghost function After(start: State, run: seq<Event>): State
    requires Legal(start, run)
    decreases |run|, 1
  {
    if run == [] then start else Apply(After(start, run[..|run| - 1]), run[|run| - 1])
  }

  /** The key was renamed into place more recently than the certificate. */
  predicate Torn(run: seq<Event>) {
    run != [] &&
    match run[|run| - 1]
    case InstallKey => true
    case InstallCert => false
    case _ => Torn(run[..|run| - 1])
  }

  /** The installed files are complete texts of one renewal each, and the key's is never the older one. */
  predicate Installed(s: State) {
    && -1 <= s.certGeneration <= s.keyGeneration < |s.renewals|
    && s.disk.cert == (if s.certGeneration < 0 then None else Some(s.renewals[s.certGeneration].cert))
    && s.disk.key == (if s.keyGeneration < 0 then None else Some(s.renewals[s.keyGeneration].key))
  }

  predicate Prepared(s: State) {
    && (s.phase != Idle ==> s.renewals != [] && s.certGeneration < |s.renewals| - 1)
    && (s.phase == WritingKey || s.phase == Written || s.phase == KeyInstalled
        ==> s.disk.certTmp == Some(Latest(s).cert))
    && (s.phase == Written ==> s.disk.keyTmp == Some(Latest(s).key))
    && (s.phase == KeyInstalled ==> s.keyGeneration == |s.renewals| - 1)
  }

  lemma StepInstalled(s: State, e: Event)
    requires Installed(s) && Prepared(s) && Enabled(s, e)
    ensures Installed(Apply(s, e)) && Prepared(Apply(s, e))
  {
  }

  /**
   Whatever crashes when: the installed files are never partial, the key is never older than the certificate, and
   the two are of different renewals exactly while the last rename was a key's - after a crash between the two renames,
   that is, and until the next write completes.
   */
  lemma {:induction false} NeverPartial(start: State, run: seq<Event>)
    requires Fresh(start) && Legal(start, run)
    ensures Installed(After(start, run)) && Prepared(After(start, run))
    ensures After(start, run).keyGeneration != After(start, run).certGeneration <==> Torn(run)
    ensures run != [] && run[|run| - 1] == InstallCert ==>
              var s := After(start, run);
              s.keyGeneration == s.certGeneration == |s.renewals| - 1 && s.disk.certTmp.None? && s.disk.keyTmp.None?
    decreases |run|
  {
    if run != [] {
      NeverPartial(start, run[..|run| - 1]);
      StepInstalled(After(start, run[..|run| - 1]), run[|run| - 1]);
    }
  }

  // ----- the writer

  /** The point at which the process dies, if it does. */
  datatype CrashPoint = InCert(n: nat) | InKey(n: nat) | BeforeRenames | BetweenRenames | Never

  class SslDir {
    var cert: Option<string>
    var key: Option<string>
    var certTmp: Option<string>
    var keyTmp: Option<string>

    ghost function View(): Disk
      reads this
    {
      Disk(cert, key, certTmp, keyTmp)
    }

    /** write_relay_cert up to its crash point: each outcome is what the events of a run leave on the disk. */
    method WriteRelayCert(pemChain: string, keyPem: string, crash: CrashPoint) returns (completed: bool)
      requires crash.InCert? ==> crash.n <= |pemChain|
      requires crash.InKey? ==> crash.n <= |keyPem|
      modifies this
      ensures completed <==> crash == Never
      ensures completed ==> View() == Disk(Some(pemChain), Some(keyPem), None, None)
      ensures crash == BetweenRenames ==> View() == Disk(old(cert), Some(keyPem), Some(pemChain), None)
      ensures crash != Never && crash != BetweenRenames ==> cert == old(cert) && key == old(key)
      ensures forall s: State | s.disk == old(View()) && s.phase == Idle ::
                var run := Events(Pair(pemChain, keyPem), crash);
                Legal(s, run) && After(s, run).disk == View()
    {
      ghost var before := View();
      ghost var pair := Pair(pemChain, keyPem);
      completed := false;
      if crash.InCert? {
        certTmp := Some(pemChain[..crash.n]);
      } else {
        certTmp := Some(pemChain);
        if crash.InKey? {
          keyTmp := Some(keyPem[..crash.n]);
        } else {
          keyTmp := Some(keyPem);
          if crash != BeforeRenames {
            key, keyTmp := keyTmp, None;
            if crash != BetweenRenames {
              cert, certTmp := certTmp, None;
              completed := true;
            }
          }
        }
      }
      forall s: State | s.disk == before && s.phase == Idle
        ensures Legal(s, Events(pair, crash)) && After(s, Events(pair, crash)).disk == View()
      {
        EventsRun(s, pair, crash);
      }
    }
  }

  function Renames(crash: CrashPoint): nat {
    match crash case Never => 2 case BetweenRenames => 1 case _ => 0
  }

  /** What the writer does up to its crash point. */
  function Events(pair: Pair, crash: CrashPoint): seq<Event>
    decreases Renames(crash)
  {
    match crash
    case InCert(n) => [Begin(pair)] + [CertPrefix(n)]
    case InKey(n) => [Begin(pair)] + [CertWritten] + [KeyPrefix(n)]
    case BeforeRenames => [Begin(pair)] + [CertWritten] + [KeyWritten]
    case BetweenRenames => Events(pair, BeforeRenames) + [InstallKey]
    case Never => Events(pair, BetweenRenames) + [InstallCert]
  }

  /** The state those events lead to. */
  function Left(s: State, pair: Pair, crash: CrashPoint): State {
    var t := s.(renewals := s.renewals + [pair]);
    var g := |s.renewals|;
    match crash
    case InCert(n) => t.(phase := WritingCert,
        disk := s.disk.(certTmp := Some(if n <= |pair.cert| then pair.cert[..n] else "")))
    case InKey(n) =>
      t.(phase := WritingKey,
         disk := s.disk.(certTmp := Some(pair.cert), keyTmp := Some(if n <= |pair.key| then pair.key[..n] else "")))
    case BeforeRenames => t.(phase := Written, disk := s.disk.(certTmp := Some(pair.cert), keyTmp := Some(pair.key)))
    case BetweenRenames =>
      t.(phase := KeyInstalled, disk := Disk(s.disk.cert, Some(pair.key), Some(pair.cert), None), keyGeneration := g)
    case Never =>
      t.(phase := Idle, disk := Disk(Some(pair.cert), Some(pair.key), None, None), keyGeneration := g,
          certGeneration := g)
  }

  lemma Extend(start: State, run: seq<Event>, e: Event)
    requires Legal(start, run) && Enabled(After(start, run), e)
    ensures Legal(start, run + [e]) && After(start, run + [e]) == Apply(After(start, run), e)
  {
    assert (run + [e])[..|run|] == run;
  }

  lemma {:induction false} EventsRun(s: State, pair: Pair, crash: CrashPoint)
    requires s.phase == Idle
    requires crash.InCert? ==> crash.n <= |pair.cert|
    requires crash.InKey? ==> crash.n <= |pair.key|
    ensures Legal(s, Events(pair, crash)) && After(s, Events(pair, crash)) == Left(s, pair, crash)
    decreases Renames(crash)
  {
    match crash
    case Never =>
      EventsRun(s, pair, BetweenRenames);
      Extend(s, Events(pair, BetweenRenames), InstallCert);
    case BetweenRenames =>
      EventsRun(s, pair, BeforeRenames);
      Extend(s, Events(pair, BeforeRenames), InstallKey);
    case InCert(n) =>
      Begun(s, pair);
      Extend(s, [Begin(pair)], CertPrefix(n));
    case InKey(n) =>
      Begun(s, pair);
      Extend(s, [Begin(pair)], CertWritten);
      Extend(s, [Begin(pair)] + [CertWritten], KeyPrefix(n));
    case BeforeRenames =>
      Begun(s, pair);
      Extend(s, [Begin(pair)], CertWritten);
      Extend(s, [Begin(pair)] + [CertWritten], KeyWritten);
  }

  lemma Begun(s: State, pair: Pair)
    requires s.phase == Idle
    ensures Legal(s, [Begin(pair)]) && After(s, [Begin(pair)]) == Apply(s, Begin(pair))
  {
    Extend(s, [], Begin(pair));
    assert [] + [Begin(pair)] == [Begin(pair)];
  }
}
