/** The tracking part of class GnssAdapter, with its fields updated in place and its folding loops.
    Every method is proved against the operation of TrackingMultiplexer that it carries out. */
module TrackingAdapter {
  import opened Wrappers
  import opened TrackingSessions
  import opened TrackingMultiplexer

  class GnssAdapter {
    var mTimeBasedTrackingSessions: Sessions
    var mDistanceBasedTrackingSessions: Sessions
    var mNHzNeeded: bool
    var mSPEAlreadyRunningAtHighestInterval: bool
    // the other side: what the modem was told, what it has yet to answer, what clients were answered
    var modem: Engine
    var posted: seq<Pending>
    var responses: seq<SessionKey>

    ghost function Now(): State
      reads this
    {
      State(mTimeBasedTrackingSessions, mDistanceBasedTrackingSessions, mNHzNeeded,
            mSPEAlreadyRunningAtHighestInterval, modem, posted, responses)
    }

    ghost predicate Valid()
      reads this
    {
      WellFormed(Now())
    }

    constructor ()
      ensures Valid() && Now() == INITIAL
    {
      mTimeBasedTrackingSessions, mDistanceBasedTrackingSessions := [], [];
      mNHzNeeded, mSPEAlreadyRunningAtHighestInterval := false, false;
      modem, posted, responses := Idle, [], [];
    }

    method CheckAndSetSPEToRunforNHz(out: TrackingOptions) returns (running: bool, adjusted: TrackingOptions)
      modifies this`mSPEAlreadyRunningAtHighestInterval
      ensures running <==> mNHzNeeded && old(mSPEAlreadyRunningAtHighestInterval)
      ensures !running ==> Command(old(Now()), out) == Now().(engine := Running(adjusted))
      ensures running ==> Now() == old(Now())
    {
      running, adjusted := false, out;
      if !mNHzNeeded {
      } else if mSPEAlreadyRunningAtHighestInterval {
        running := true;
      } else if out.minInterval > MIN_TRACKING_INTERVAL {
        adjusted := out.(minInterval := MIN_TRACKING_INTERVAL);
        mSPEAlreadyRunningAtHighestInterval := true;
      }
    }

    method StartTimeBasedTracking(k: SessionKey, o: TrackingOptions)
      modifies this
      ensures Now() == StartTracking(old(Now()), k, o)
    {
      var running, adjusted := CheckAndSetSPEToRunforNHz(o);
      if !running {
        modem := Running(adjusted);
      }
      responses := responses + [k];
    }

    method StopTracking(k: SessionKey)
      modifies this
      ensures Now() == TrackingMultiplexer.StopTracking(old(Now()), k)
    {
      modem := Idle;
      responses := responses + [k];
      mSPEAlreadyRunningAtHighestInterval := false;
    }

    /** The loop shared by starting, updating and stopping: both minima over the sessions but one. */
    method FindSmallest(skip: Option<SessionKey>) returns (options: TrackingOptions, power: PowerMode)
      ensures options == Fastest(mTimeBasedTrackingSessions, skip)
      ensures power == LowestPower(mTimeBasedTrackingSessions, skip)
    {
      options, power := ZEROED_OPTIONS, POWER_MODE_INVALID;
      var s := mTimeBasedTrackingSessions;
      for i := 0 to |s|
        invariant options == Fastest(s[..i], skip) && power == LowestPower(s[..i], skip)
      {
        assert s[..i + 1][..i] == s[..i];
        if Some(s[i].key) != skip && (options.size == 0 || s[i].options.minInterval < options.minInterval) {
          options := s[i].options;
        }
        if Some(s[i].key) != skip && (power == POWER_MODE_INVALID || s[i].options.powerMode < power) {
          power := s[i].options.powerMode;
        }
      }
      assert s[..|s|] == s;
    }

    method StartTimeBasedTrackingMultiplex(k: SessionKey, o: TrackingOptions) returns (reportWithNoWait: bool)
      modifies this
      ensures (Now(), reportWithNoWait) == StartMultiplex(old(Now()), k, o)
    {
      reportWithNoWait := true;
      if mTimeBasedTrackingSessions == [] {
        StartTimeBasedTracking(k, o);
        reportWithNoWait := false;
      } else {
        var multiplexed, power := FindSmallest(None);
        var updateOptions := false;
        if o.minInterval < multiplexed.minInterval {
          multiplexed := multiplexed.(minInterval := o.minInterval);
          updateOptions := true;
        }
        if o.powerMode < power {
          multiplexed := multiplexed.(powerMode := o.powerMode);
          updateOptions := true;
        }
        if updateOptions {
          StartTimeBasedTracking(k, multiplexed);
          reportWithNoWait := false;
        }
      }
    }

    method UpdateTrackingMultiplex(k: SessionKey, o: TrackingOptions) returns (reportWithNoWait: bool)
      requires Has(mTimeBasedTrackingSessions, k)
      modifies this
      ensures (Now(), reportWithNoWait) == UpdateMultiplex(old(Now()), k, o)
    {
      reportWithNoWait := true;
      var was := Find(mTimeBasedTrackingSessions, k);
      if was.minInterval != o.minInterval || was.powerMode != o.powerMode {
        var multiplexed, power := FindSmallest(Some(k));
        var updateOptions := false;
        if o.minInterval < multiplexed.minInterval {
          multiplexed := multiplexed.(minInterval := o.minInterval);
          updateOptions := true;
        }
        if o.powerMode < power {
          multiplexed := multiplexed.(powerMode := o.powerMode);
          updateOptions := true;
        }
        if |mTimeBasedTrackingSessions| == 1 {
          multiplexed := o;
          updateOptions := true;
        }
        if updateOptions {
          StartTimeBasedTracking(k, multiplexed);
          reportWithNoWait := false;
        }
      }
    }

    method StopTimeBasedTrackingMultiplex(k: SessionKey) returns (reportWithNoWait: bool)
      modifies this
      ensures (Now(), reportWithNoWait) == StopMultiplex(old(Now()), k)
    {
      reportWithNoWait := true;
      if |mTimeBasedTrackingSessions| == 1 {
        StopTracking(k);
        reportWithNoWait := false;
      } else if Has(mTimeBasedTrackingSessions, k) {
        var was := Find(mTimeBasedTrackingSessions, k);
        var multiplexed, power := FindSmallest(Some(k));
        if was.minInterval < multiplexed.minInterval || was.powerMode < power {
          multiplexed := multiplexed.(powerMode := power);
          StartTimeBasedTracking(k, multiplexed);
          reportWithNoWait := false;
        }
      }
    }

    method SaveTrackingSession(k: SessionKey, o: TrackingOptions)
      requires Valid()
      modifies this
      ensures Valid() && Now() == SaveSession(old(Now()), k, o)
    {
      if o.minDistance > 0 {
        mDistanceBasedTrackingSessions := Save(mDistanceBasedTrackingSessions, k, o);
      } else {
        mTimeBasedTrackingSessions := Save(mTimeBasedTrackingSessions, k, o);
      }
    }

    method EraseTrackingSession(k: SessionKey)
      requires Valid()
      modifies this
      ensures Valid() && Now() == EraseSession(old(Now()), k)
    {
      if Has(mTimeBasedTrackingSessions, k) {
        mTimeBasedTrackingSessions := Erase(mTimeBasedTrackingSessions, k);
      } else {
        mDistanceBasedTrackingSessions := Erase(mDistanceBasedTrackingSessions, k);
      }
    }

    method ReportResponse(k: SessionKey, due: bool)
      modifies this`responses
      ensures Now() == Answer(old(Now()), k, due)
    {
      if due {
        responses := responses + [k];
      }
    }

    method StartTimeBasedSession(k: SessionKey, o: TrackingOptions)
      requires Valid()
      modifies this
      ensures Valid() && Now() == StartTimeBased(old(Now()), k, o)
    {
      var due := StartTimeBasedTrackingMultiplex(k, o);
      SaveTrackingSession(k, o);
      ReportResponse(k, due);
    }

    method StopTimeBasedSession(k: SessionKey)
      requires Valid()
      modifies this
      ensures Valid() && Now() == StopTimeBased(old(Now()), k)
    {
      var due := StopTimeBasedTrackingMultiplex(k);
      EraseTrackingSession(k);
      ReportResponse(k, due);
    }

    method ProcStartTracking(k: SessionKey, options: TrackingOptions, hasCallbacks: bool)
      requires Valid()
      modifies this
      ensures Valid() && Now() == OnStart(old(Now()), k, options, hasCallbacks)
    {
      if hasCallbacks && options.size != 0 {
        var o := AtLeastMinimum(options);
        if o.minDistance > 0 {
          SaveTrackingSession(k, o);
          posted := posted + [EraseOnRefusal(k)];
        } else {
          StartTimeBasedSession(k, WithoutLongTbm(o));
        }
      }
    }

    method ProcUpdateTracking(k: SessionKey, options: TrackingOptions)
      requires Valid()
      modifies this
      ensures Valid() && Now() == OnUpdate(old(Now()), k, options)
    {
      var isTimeBased := Has(mTimeBasedTrackingSessions, k);
      var isDistanceBased := Has(mDistanceBasedTrackingSessions, k);
      if (!isTimeBased && !isDistanceBased) || options.size == 0 {
        ReportResponse(k, true);
        return;
      }
      var o := AtLeastMinimum(WithoutLongTbm(options));
      if isTimeBased && o.minDistance > 0 {
        StopTimeBasedSession(k);
        SaveTrackingSession(k, o);
      } else if isDistanceBased && o.minDistance == 0 {
        EraseTrackingSession(k);
        posted := posted + [StartTimeBasedOnReply(k, o)];
      } else if isTimeBased {
        var due := UpdateTrackingMultiplex(k, o);
        SaveTrackingSession(k, o);
        ReportResponse(k, due);
      } else {
        posted := posted + [RestartOnReply(k, o)];
      }
    }

    method ProcStopTracking(k: SessionKey)
      requires Valid()
      modifies this
      ensures Valid() && Now() == OnStop(old(Now()), k)
    {
      if Has(mTimeBasedTrackingSessions, k) {
        StopTimeBasedSession(k);
      } else if Has(mDistanceBasedTrackingSessions, k) {
        posted := posted + [EraseOnReply(k)];
      } else {
        ReportResponse(k, true);
      }
    }

    method ProcModemReply(success: bool)
      requires Valid()
      modifies this
      ensures Valid() && Now() == OnModemReply(old(Now()), success)
    {
      if posted == [] { return; }
      var p := posted[0];
      posted := posted[1..];
      match p
      case EraseOnReply(k) =>
        if success {
          EraseTrackingSession(k);
        }
        ReportResponse(k, true);
      case EraseSilentlyOnReply(k) =>
        if success {
          EraseTrackingSession(k);
        }
      case EraseOnRefusal(k) =>
        if !success {
          EraseTrackingSession(k);
        }
        ReportResponse(k, true);
      case StartTimeBasedOnReply(k, o) =>
        StartTimeBasedSession(k, o);
      case RestartOnReply(k, o) =>
        if success {
          posted := posted + [SaveOnReply(k, o)];
        }
      case SaveOnReply(k, o) =>
        if success {
          SaveTrackingSession(k, o);
        }
        ReportResponse(k, true);
    }

    method StopTimeBasedSessions(keys: seq<SessionKey>)
      requires Valid()
      modifies this
      ensures Valid() && Now() == StopEach(old(Now()), keys)
    {
      for i := 0 to |keys|
        invariant Valid() && Now() == StopEach(old(Now()), keys[..i])
      {
        assert keys[..i + 1][..i] == keys[..i];
        var _ := StopTimeBasedTrackingMultiplex(keys[i]);
        EraseTrackingSession(keys[i]);
      }
      assert keys[..|keys|] == keys;
    }

    method StopDistanceBasedSessions(keys: seq<SessionKey>)
      modifies this`posted
      ensures Now() == old(Now()).(pending := old(posted) + Erasures(keys))
    {
      for i := 0 to |keys|
        invariant posted == old(posted) + Erasures(keys[..i])
      {
        assert Erasures(keys[..i + 1]) == Erasures(keys[..i]) + [EraseSilentlyOnReply(keys[i])];
        posted := posted + [EraseSilentlyOnReply(keys[i])];
      }
      assert keys[..|keys|] == keys;
    }

    method StopClientSessions(client: nat)
      requires Valid()
      modifies this
      ensures Valid() && Now() == OnRemoveClient(old(Now()), client)
    {
      StopTimeBasedSessions(KeysOf(mTimeBasedTrackingSessions, client));
      StopDistanceBasedSessions(KeysOf(mDistanceBasedTrackingSessions, client));
    }

    method CheckAndRestartSPESession()
      modifies this
      ensures Now() == Restart(old(Now()))
    {
      mSPEAlreadyRunningAtHighestInterval := false;
      var s := mTimeBasedTrackingSessions;
      if s != [] {
        var smallestInterval, highestPower := ZEROED_OPTIONS, ZEROED_OPTIONS;
        for i := 0 to |s|
          invariant smallestInterval == Fastest(s[..i], None) && highestPower == HighestPower(s[..i])
        {
          assert s[..i + 1][..i] == s[..i];
          var o := s[i].options;
          if smallestInterval.size == 0 || o.minInterval < smallestInterval.minInterval {
            smallestInterval := o;
          }
          if highestPower.size == 0 || (o.powerMode != POWER_MODE_INVALID && o.powerMode < highestPower.powerMode) {
            highestPower := o;
          }
        }
        assert s[..|s|] == s;
        highestPower := SetLocationOptions(highestPower, smallestInterval);
        var running, adjusted := CheckAndSetSPEToRunforNHz(highestPower);
        if !running {
          modem := Running(adjusted);
        }
      }
    }

    method UpdateNHzRequirement(nHzNeeded: bool)
      modifies this
      ensures Now() == OnNHzRequirement(old(Now()), nHzNeeded)
    {
      if mNHzNeeded != nHzNeeded {
        mNHzNeeded := nHzNeeded;
        CheckAndRestartSPESession();
      }
    }

    method SuspendSessions()
      modifies this
      ensures Now() == Suspend(old(Now()))
    {
      if mTimeBasedTrackingSessions != [] {
        modem := Idle;
        mSPEAlreadyRunningAtHighestInterval := false;
      }
    }

    /** The suspend and restart that every configuration change of the modem is wrapped in. */
    method GnssUpdateSvConfig()
      modifies this
      ensures Now() == Restart(Suspend(old(Now())))
    {
      SuspendSessions();
      CheckAndRestartSPESession();
    }

    method HandleEngineUp()
      modifies this
      ensures Now() == Restart(old(Now()).(engine := Idle))
    {
      modem := Idle;
      CheckAndRestartSPESession();
    }
  }
}
