/**
 The records of the state blob: globals, PID 1's own descriptors, one row per
 service, evictions under way and stored descriptors.
 */
module ReexecSchemas {
  import opened TextLines
  import opened ReexecValues
  import opened ReexecRecord

  const GLOBAL: Schema := [
    Field("version", STR(64), Str("")),
    Field("argv0", STR(256), Str("")),
    Field("init_start", TS, Stamp(0, 0)),
    Field("under_pressure", INT, Num(0)),
    Field("last_stall_ms", MS, Num(0)),
    Field("last_reclaim_ms", MS, Num(0)),
    Field("nofile_soft", MS, Num(0))]

  const OWN_FDS: Schema := [
    Field("ctl", FD(-1), Num(-1)),
    Field("notify", FD(-1), Num(-1)),
    Field("watchdog", FD(-1), Num(-1)),
    Field("client", FD(-1), Num(-1)),
    Field("oldexe", FD(-1), Num(-1))]

  const EVICT: Schema := [
    Field("pid", PID, Num(0)),
    Field("deadline", TIME, Num(0)),
    Field("cgroup", STR(256), Str("")),
    Field("reaped", INT, Num(0)),
    Field("killed", INT, Num(0))]

  const STORED: Schema := [
    Field("svc", STR(64), Str("")),
    Field("name", STR(64), Str("")),
    Field("fd", FD(0), Num(-1))]

  const SVC0: Schema := [
    Field("name", STR(64), Str("")),
    Field("hash", U32, Num(0)),
    Field("timer", INT, Num(0)),
    Field("no_restart", FLAG, Num(0)),
    Field("child_pid", PID, Num(0))]

  const SVC1: Schema := [
    Field("inst", INST, Nums([0, 0, 0, 0, 0, 0])),
    Field("restart_count", INT, Num(0)),
    Field("dormant_count", U8, Num(0)),
    Field("circuit_broken", U8, Num(0)),
    Field("excise_reason", U8, Num(0))]

  const SVC2: Schema := [
    Field("bind_held", U8, Num(0)),
    Field("bind_was_up", U8, Num(0)),
    Field("bind_seen_spawn", TS, Stamp(0, 0)),
    Field("bind_held_since", TS, Stamp(0, 0)),
    Field("bind_died_at", TS, Stamp(0, 0))]

  const SVC3: Schema := [
    Field("bind_saved_restarts", INT, Num(0)),
    Field("bind_saved_dormant", U8, Num(0)),
    Field("dormant_until", TS, Stamp(0, 0)),
    Field("restart_at", TS, Stamp(0, 0)),
    Field("last_start", TIME, Num(0))]

  const SVC4: Schema := [
    Field("start_time", TIME, Num(0)),
    Field("stable_time", TS, Stamp(0, 0)),
    Field("failsafe_pid", PID, Num(0)),
    Field("failsafe_start", TS, Stamp(0, 0)),
    Field("last_pet", TS, Stamp(0, 0))]

  const SVC5: Schema := [
    Field("wd_armed_sec", INT, Num(0)),
    Field("wd_abort_at", TS, Stamp(0, 0)),
    Field("ready_path_verified", INT, Num(0)),
    Field("ready_stale_dev", U64, Num(0)),
    Field("ready_stale_ino", U64, Num(0))]

  const SVC6: Schema := [
    Field("ready_stale_ctime", TS, Stamp(0, 0)),
    Field("notify_ready", INT, Num(0)),
    Field("notify_status", STR(128), Str("")),
    Field("ctl_killed", INT, Num(0)),
    Field("exit_status", INT, Num(0))]

  const SVC7: Schema := [
    Field("term_signal", INT, Num(0)),
    Field("core_dumped", INT, Num(0)),
    Field("has_exited", INT, Num(0)),
    Field("timer_next", TS, Stamp(0, 0)),
    Field("timer_catchup_wait", INT, Num(0))]

  const SVC8: Schema := [
    Field("spawn_time_mono", TS, Stamp(0, 0)),
    Field("boot_spawn", TS, Stamp(0, 0)),
    Field("boot_ready", TS, Stamp(0, 0)),
    Field("boot_how", INT, Num(0)),
    Field("cgroup_path", STR(256), Str(""))]

  const SVC9: Schema := [
    Field("is_frozen", INT, Num(0)),
    Field("fork_state", INT, Num(0)),
    Field("fork_wait", TS, Stamp(0, 0)),
    Field("listen_hold", INT, Num(0)),
    Field("listen_open", INT, Num(0))]

  const SVC10: Schema := [
    Field("card_next", INT, Num(0)),
    Field("card_pid", PID, Num(0)),
    Field("card_start", TS, Stamp(0, 0)),
    Field("stop_pid", PID, Num(0)),
    Field("stop_phase", INT, Num(0))]

  const SVC11: Schema := [
    Field("stop_start", TS, Stamp(0, 0)),
    Field("main_pid", PID, Num(0)),
    Field("main_wait", INT, Num(0)),
    Field("main_wait_due", TS, Stamp(0, 0)),
    Field("fallback_live", U8, Num(0))]

  const SVC12: Schema := [
    Field("standby_up", U8, Num(0)),
    Field("listen_fd", FDS, Nums([0, 0, 0, 0]))]

  /** Identity and held-down bits first, then every field a running PID 1
      learned that a fresh parse of the service file cannot reproduce. */
  const SVC: Schema := SVC0 + (SVC1 + (SVC2 + (SVC3 + (SVC4 + (SVC5 + (SVC6 + (SVC7 + (SVC8 + (SVC9 + (SVC10 + (SVC11 + SVC12)))))))))))

  // ---- the keys of a schema are plain and distinct ----

  /** Length, first and second last character: enough to tell all keys apart. */
  function Code(key: string): int {
    if |key| < 2 then |key| else (|key| * 128 + key[0] as int) * 128 + key[|key| - 2] as int
  }

  predicate FieldOk(f: Field) {
    KeyOk(f.key) && (f.kind.FLAG? ==> f.zero == Num(0))
  }

  predicate FieldsOk(schema: Schema) {
    forall i :: 0 <= i < |schema| ==> FieldOk(schema[i])
  }

  /** The codes of these keys stand for the positions from `from` on. */
  predicate Slotted(schema: Schema, from: int) {
    forall i :: 0 <= i < |schema| ==> SvcSlot(Code(schema[i].key)) == from + i
  }

  /** Field by field, for as many as a part of a schema has. */
  lemma UpToSeven(s: Schema)
    requires |s| <= 7
    requires 0 < |s| ==> FieldOk(s[0])
    requires 1 < |s| ==> FieldOk(s[1])
    requires 2 < |s| ==> FieldOk(s[2])
    requires 3 < |s| ==> FieldOk(s[3])
    requires 4 < |s| ==> FieldOk(s[4])
    requires 5 < |s| ==> FieldOk(s[5])
    requires 6 < |s| ==> FieldOk(s[6])
    ensures FieldsOk(s)
  {
    hide FieldOk;
  }

  lemma UpToFive(s: Schema, from: int)
    requires |s| <= 5
    requires 0 < |s| ==> SvcSlot(Code(s[0].key)) == from
    requires 1 < |s| ==> SvcSlot(Code(s[1].key)) == from + 1
    requires 2 < |s| ==> SvcSlot(Code(s[2].key)) == from + 2
    requires 3 < |s| ==> SvcSlot(Code(s[3].key)) == from + 3
    requires 4 < |s| ==> SvcSlot(Code(s[4].key)) == from + 4
    ensures Slotted(s, from)
  {
    hide SvcSlot;
    hide Code;
  }

  lemma Join(a: Schema, b: Schema, from: int)
    requires FieldsOk(a) && FieldsOk(b) && Slotted(a, from) && Slotted(b, from + |a|)
    ensures FieldsOk(a + b) && Slotted(a + b, from)
  {
    hide SvcSlot;
    hide Code;
    hide FieldOk;
    var s := a + b;
    forall i | 0 <= i < |s|
      ensures FieldOk(s[i]) && SvcSlot(Code(s[i].key)) == from + i
    {
      assert i < |a| ==> s[i] == a[i];
      assert i >= |a| ==> s[i] == b[i - |a|];
    }
  }

  lemma SlottedIsOk(schema: Schema)
    requires FieldsOk(schema) && Slotted(schema, 0)
    ensures SchemaOk(schema)
  {
    hide SvcSlot;
    hide Code;
    forall i, j | 0 <= i < j < |schema|
      ensures schema[i].key != schema[j].key
    {
      assert SvcSlot(Code(schema[i].key)) == i && SvcSlot(Code(schema[j].key)) == j;
    }
    assert forall i :: 0 <= i < |schema| ==> FieldOk(schema[i]);
  }

  /** The position a code stands for. */
  function SvcSlot(code: int): int {
    if code == 79725 then 0
    else if code == 78963 then 1
    else if code == 96869 then 2
    else if code == 178034 then 3
    else if code == 160233 then 4
    else if code == 79091 then 5
    else if code == 227694 then 6
    else if code == 225902 then 7
    else if code == 242149 then 8
    else if code == 226031 then 9
    else if code == 160108 then 10
    else if code == 192885 then 11
    else if code == 258423 then 12
    else if code == 258403 then 13
    else if code == 209249 then 14
    else if code == 323956 then 15
    else if code == 307566 then 16
    else if code == 225897 then 17
    else if code == 178529 then 18
    else if code == 177778 then 19
    else if code == 178669 then 20
    else if code == 195053 then 21
    else if code == 209769 then 22
    else if code == 242546 then 23
    else if code == 144997 then 24
    else if code == 211941 then 25
    else if code == 195553 then 26
    else if code == 325989 then 27
    else if code == 260453 then 28
    else if code == 260462 then 29
    else if code == 293229 then 30
    else if code == 210788 then 31
    else if code == 227189 then 32
    else if code == 176613 then 33
    else if code == 193269 then 34
    else if code == 195169 then 35
    else if code == 192997 then 36
    else if code == 177253 then 37
    else if code == 178808 then 38
    else if code == 309865 then 39
    else if code == 260590 then 40
    else if code == 176503 then 41
    else if code == 176484 then 42
    else if code == 143727 then 43
    else if code == 193012 then 44
    else if code == 160997 then 45
    else if code == 177012 then 46
    else if code == 160617 then 47
    else if code == 194156 then 48
    else if code == 194149 then 49
    else if code == 160248 then 50
    else if code == 143849 then 51
    else if code == 176626 then 52
    else if code == 145897 then 53
    else if code == 178675 then 54
    else if code == 178674 then 55
    else if code == 145129 then 56
    else if code == 161513 then 57
    else if code == 227061 then 58
    else if code == 226166 then 59
    else if code == 178677 then 60
    else if code == 161382 then 61
    else -1
  }

  lemma Svc0Fields() ensures FieldsOk(SVC0) { UpToSeven(SVC0); }
  lemma Svc0Slots() ensures Slotted(SVC0, 0) { UpToFive(SVC0, 0); }
  lemma Svc1Fields() ensures FieldsOk(SVC1) { UpToSeven(SVC1); }
  lemma Svc1Slots() ensures Slotted(SVC1, 5) { UpToFive(SVC1, 5); }
  lemma Svc2Fields() ensures FieldsOk(SVC2) { UpToSeven(SVC2); }
  lemma Svc2Slots() ensures Slotted(SVC2, 10) { UpToFive(SVC2, 10); }
  lemma Svc3Fields() ensures FieldsOk(SVC3) { UpToSeven(SVC3); }
  lemma Svc3Slots() ensures Slotted(SVC3, 15) { UpToFive(SVC3, 15); }
  lemma Svc4Fields() ensures FieldsOk(SVC4) { UpToSeven(SVC4); }
  lemma Svc4Slots() ensures Slotted(SVC4, 20) { UpToFive(SVC4, 20); }
  lemma Svc5Fields() ensures FieldsOk(SVC5) { UpToSeven(SVC5); }
  lemma Svc5Slots() ensures Slotted(SVC5, 25) { UpToFive(SVC5, 25); }
  lemma Svc6Fields() ensures FieldsOk(SVC6) { UpToSeven(SVC6); }
  lemma Svc6Slots() ensures Slotted(SVC6, 30) { UpToFive(SVC6, 30); }
  lemma Svc7Fields() ensures FieldsOk(SVC7) { UpToSeven(SVC7); }
  lemma Svc7Slots() ensures Slotted(SVC7, 35) { UpToFive(SVC7, 35); }
  lemma Svc8Fields() ensures FieldsOk(SVC8) { UpToSeven(SVC8); }
  lemma Svc8Slots() ensures Slotted(SVC8, 40) { UpToFive(SVC8, 40); }
  lemma Svc9Fields() ensures FieldsOk(SVC9) { UpToSeven(SVC9); }
  lemma Svc9Slots() ensures Slotted(SVC9, 45) { UpToFive(SVC9, 45); }
  lemma Svc10Fields() ensures FieldsOk(SVC10) { UpToSeven(SVC10); }
  lemma Svc10Slots() ensures Slotted(SVC10, 50) { UpToFive(SVC10, 50); }
  lemma Svc11Fields() ensures FieldsOk(SVC11) { UpToSeven(SVC11); }
  lemma Svc11Slots() ensures Slotted(SVC11, 55) { UpToFive(SVC11, 55); }
  lemma Svc12Fields() ensures FieldsOk(SVC12) { UpToSeven(SVC12); }
  lemma Svc12Slots() ensures Slotted(SVC12, 60) { UpToFive(SVC12, 60); }

  /** The keys of a service record are distinct, and none holds a blank, an
      equals sign or a newline. */
  lemma SvcOk()
    ensures SchemaOk(SVC)
  {
    hide FieldsOk;
    hide Slotted;
    Svc0Fields(); Svc1Fields(); Svc2Fields(); Svc3Fields();
    Svc4Fields(); Svc5Fields(); Svc6Fields(); Svc7Fields();
    Svc8Fields(); Svc9Fields(); Svc10Fields(); Svc11Fields();
    Svc12Fields();
    Svc0Slots(); Svc1Slots(); Svc2Slots(); Svc3Slots();
    Svc4Slots(); Svc5Slots(); Svc6Slots(); Svc7Slots();
    Svc8Slots(); Svc9Slots(); Svc10Slots(); Svc11Slots();
    Svc12Slots();
    Join(SVC11, SVC12, 55);
    Join(SVC10, SVC11 + SVC12, 50);
    Join(SVC9, SVC10 + (SVC11 + SVC12), 45);
    Join(SVC8, SVC9 + (SVC10 + (SVC11 + SVC12)), 40);
    Join(SVC7, SVC8 + (SVC9 + (SVC10 + (SVC11 + SVC12))), 35);
    Join(SVC6, SVC7 + (SVC8 + (SVC9 + (SVC10 + (SVC11 + SVC12)))), 30);
    Join(SVC5, SVC6 + (SVC7 + (SVC8 + (SVC9 + (SVC10 + (SVC11 + SVC12))))), 25);
    Join(SVC4, SVC5 + (SVC6 + (SVC7 + (SVC8 + (SVC9 + (SVC10 + (SVC11 + SVC12)))))), 20);
    Join(SVC3, SVC4 + (SVC5 + (SVC6 + (SVC7 + (SVC8 + (SVC9 + (SVC10 + (SVC11 + SVC12))))))), 15);
    Join(SVC2, SVC3 + (SVC4 + (SVC5 + (SVC6 + (SVC7 + (SVC8 + (SVC9 + (SVC10 + (SVC11 + SVC12)))))))), 10);
    Join(SVC1, SVC2 + (SVC3 + (SVC4 + (SVC5 + (SVC6 + (SVC7 + (SVC8 + (SVC9 + (SVC10 + (SVC11 + SVC12))))))))), 5);
    Join(SVC0, SVC1 + (SVC2 + (SVC3 + (SVC4 + (SVC5 + (SVC6 + (SVC7 + (SVC8 + (SVC9 + (SVC10 + (SVC11 + SVC12)))))))))), 0);
    SlottedIsOk(SVC);
  }

  lemma GlobalFields() ensures FieldsOk(GLOBAL) { UpToSeven(GLOBAL); }

  lemma GlobalOk()
    ensures SchemaOk(GLOBAL)
  {
    GlobalFields();
    hide KeyOk;
    assert forall i :: 0 <= i < |GLOBAL| ==> FieldOk(GLOBAL[i]);
  }

  lemma OwnFdsFields() ensures FieldsOk(OWN_FDS) { UpToSeven(OWN_FDS); }

  lemma OwnFdsOk()
    ensures SchemaOk(OWN_FDS)
  {
    OwnFdsFields();
    hide KeyOk;
    assert forall i :: 0 <= i < |OWN_FDS| ==> FieldOk(OWN_FDS[i]);
  }

  lemma EvictFields() ensures FieldsOk(EVICT) { UpToSeven(EVICT); }

  lemma EvictOk()
    ensures SchemaOk(EVICT)
  {
    EvictFields();
    hide KeyOk;
    assert forall i :: 0 <= i < |EVICT| ==> FieldOk(EVICT[i]);
  }

  lemma StoredFields() ensures FieldsOk(STORED) { UpToSeven(STORED); }

  lemma StoredOk()
    ensures SchemaOk(STORED)
  {
    StoredFields();
    hide KeyOk;
    assert forall i :: 0 <= i < |STORED| ==> FieldOk(STORED[i]);
  }
}
