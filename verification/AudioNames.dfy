/** The names in audio device evidence are short, and JSON prints them as they are. */
module AudioNames {
  import opened JsonTrees
  import opened AudioEvidence

  /** No field name, and no name of a closed value, is longer than this. */
  const NAME_BYTES: nat := 31

  /** A name that is printed as it is. */
  predicate Fine(s: string) { |s| <= NAME_BYTES && Plain(s) }

  ghost predicate Short(names: seq<string>) { forall i | 0 <= i < |names| :: Fine(names[i]) }

  lemma ShortProbes()
    ensures Short(PROBE_NAMES)
  {
    FineProbes1(); FineProbes2(); FineProbes3(); FineProbes4(); FineProbes5(); FineProbes6();
    FineProbes7(); FineProbes8(); FineProbes9(); FineProbes10();
  }

  lemma ShortReasons()
    ensures Short(REASON_NAMES)
  {
    FineReasons1(); FineReasons2(); FineReasons3(); FineReasons4();
  }

  lemma ShortOthers()
    ensures Short(STATE_NAMES) && Short(DIRECTION_NAMES) && Short(CANDIDATE_NAMES)
    ensures Short(SOURCE_NAMES) && Short(LINKAGE_NAMES) && Short(BACKEND_NAMES)
  {
    FineOthers1(); FineOthers2(); FineOthers3(); FineOthers4();
  }

  lemma ShortField(f: Field)
    requires !f.Unknown?
    ensures TextLength(Name(f)) <= NAME_BYTES
  {
    FineFields1(); FineFields2(); FineFields3(); FineFields4(); FineFields5(); FineFields6();
    FineFields7();
    assert Fine(Name(f));
    PlainLength(Name(f));
  }

  lemma FineProbes1()
    ensures Fine("invalid_format_rejected") && Fine("malformed_wav_rejected") && Fine("oversized_wav_rejected")
  {
  }

  lemma FineProbes2()
    ensures Fine("permission_denial_classified") && Fine("device_loss_classified") && Fine("playback_underrun_observed")
  {
  }

  lemma FineProbes3()
    ensures Fine("capture_overrun_rejected") && Fine("concurrent_operation_rejected") && Fine("cancel_during_open")
  {
  }

  lemma FineProbes4()
    ensures Fine("cancel_during_start") && Fine("cancel_during_stream") && Fine("cancel_during_stop")
  {
  }

  lemma FineProbes5()
    ensures Fine("cancel_during_close") && Fine("playback_owner_quiescent") && Fine("capture_bound_enforced")
  {
  }

  lemma FineProbes6()
    ensures Fine("partial_capture_not_published") && Fine("late_callback_rejected") && Fine("teardown_quiescent")
  {
  }

  lemma FineProbes7()
    ensures Fine("runtime_backend_forced") && Fine("physical_device_access_excluded")
  {
  }

  lemma FineProbes8()
    ensures Fine("device_availability_behavior") && Fine("callback_quiescent_after_close")
  {
  }

  lemma FineProbes9()
    ensures Fine("playback_callback_lifecycle") && Fine("capture_callback_lifecycle")
  {
  }

  lemma FineProbes10()
    ensures Fine("controller_thread_cancellation")
  {
  }

  lemma FineReasons1()
    ensures Fine("none") && Fine("no_device") && Fine("permission_denied") && Fine("unsupported_format")
  {
  }

  lemma FineReasons2()
    ensures Fine("candidate_limitation") && Fine("contract_failed") && Fine("prerequisite_unavailable") && Fine("timeout")
  {
  }

  lemma FineReasons3()
    ensures Fine("signaled") && Fine("nonzero_exit") && Fine("malformed_protocol") && Fine("output_limit")
  {
  }

  lemma FineReasons4()
    ensures Fine("cleanup_failed") && Fine("internal_error")
  {
  }

  lemma FineOthers1()
    ensures Fine("none") && Fine("playback") && Fine("capture") && Fine("observed")
  {
  }

  lemma FineOthers2()
    ensures Fine("unavailable") && Fine("probe_error") && Fine("rtaudio") && Fine("miniaudio")
  {
  }

  lemma FineOthers3()
    ensures Fine("installed_package") && Fine("controlled_source_fallback") && Fine("static") && Fine("dummy")
  {
  }

  lemma FineOthers4()
    ensures Fine("null")
  {
  }

  lemma FineFields1()
    ensures Fine("callbacks") && Fine("cancellation_observed") && Fine("cleanup_complete") && Fine("direction")
  {
  }

  lemma FineFields2()
    ensures Fine("frames") && Fine("probe_id") && Fine("reason") && Fine("state")
  {
  }

  lemma FineFields3()
    ensures Fine("xruns") && Fine("candidate_id") && Fine("candidate_version") && Fine("codec_features")
  {
  }

  lemma FineFields4()
    ensures Fine("dependency_source") && Fine("device_access") && Fine("linkage") && Fine("probes")
  {
  }

  lemma FineFields5()
    ensures Fine("runtime_backend") && Fine("kind") && Fine("schema_id") && Fine("schema_version")
  {
  }

  lemma FineFields6()
    ensures Fine("architecture") && Fine("candidates") && Fine("contract_probes") && Fine("platform")
  {
  }

  lemma FineFields7()
    ensures Fine("source_sha")
  {
  }
}
