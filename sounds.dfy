// The sound manager's state machine: the on/off switch, the registered
// effect names, the footstep rate limit, the ambient loop and the two
// continuous proximity cues (heartbeat and warning) with their volumes.
// The Web Audio node graphs are not modelled; what a sound's synthesis
// would do is recorded as the name appended to `played`.
module Sounds {
  import opened Grid

  /** The effect names createSounds registers. */
  const EFFECTS: set<string> := {"footstep", "door", "ghost", "pumpkin", "ambient", "jump", "victory"}

  const FOOTSTEP_DELAY: real := 0.3
  const HEARTBEAT_RANGE: real := 3.0
  const WARNING_RANGE: real := 1.5
  const HEARTBEAT_MAX: real := 0.3
  const WARNING_MAX: real := 0.2

  /** A continuous cue: which creation it came from, and its gain. */
  datatype Cue = Cue(serial: nat, gain: real)

  /** Heartbeat gain: (3 - d) / 3 * 0.3, clamped to [0, 0.3]. */
  function HeartbeatVolume(d: real): (v: real)
    ensures 0.0 <= v <= HEARTBEAT_MAX
    ensures d >= HEARTBEAT_RANGE ==> v == 0.0
    ensures d <= 0.0 ==> v == HEARTBEAT_MAX
  {
    MaxReal(0.0, MinReal(HEARTBEAT_MAX, (HEARTBEAT_RANGE - d) / HEARTBEAT_RANGE * HEARTBEAT_MAX))
  }

  /** Warning gain: (1.5 - d) / 1.5 * 0.2, clamped to [0, 0.2]. */
  function WarningVolume(d: real): (v: real)
    ensures 0.0 <= v <= WARNING_MAX
    ensures d >= WARNING_RANGE ==> v == 0.0
    ensures d <= 0.0 ==> v == WARNING_MAX
  {
    MaxReal(0.0, MinReal(WARNING_MAX, (WARNING_RANGE - d) / WARNING_RANGE * WARNING_MAX))
  }

  /** Both cues grow louder as the nearest enemy comes closer. */
  lemma VolumesMonotone(d1: real, d2: real)
    requires d1 <= d2
    ensures HeartbeatVolume(d1) >= HeartbeatVolume(d2)
    ensures WarningVolume(d1) >= WarningVolume(d2)
  {
    assert (HEARTBEAT_RANGE - d1) / HEARTBEAT_RANGE >= (HEARTBEAT_RANGE - d2) / HEARTBEAT_RANGE;
    assert (WARNING_RANGE - d1) / WARNING_RANGE >= (WARNING_RANGE - d2) / WARNING_RANGE;
  }

  /** Which cues updateEnemyProximitySound leaves running. */
  datatype Tier = Silent | HeartbeatOnly | Both

  /** The proximity tier of a distance: below 1.5 both cues, from 1.5
      below 3.0 the heartbeat only, otherwise neither. */
  function TierOf(enabled: bool, d: real): (t: Tier)
    ensures t == Both <==> enabled && d < WARNING_RANGE
    ensures t == HeartbeatOnly <==> enabled && WARNING_RANGE <= d < HEARTBEAT_RANGE
    ensures t == Silent <==> !enabled || d >= HEARTBEAT_RANGE
  {
    if !enabled then Silent
    else if d < WARNING_RANGE then Both
    else if d < HEARTBEAT_RANGE then HeartbeatOnly
    else Silent
  }

  class SoundManager {
    /** Whether an AudioContext could be created. */
    const audio: bool
    /** The names of `this.sounds`. */
    const sounds: set<string>
    var enabled: bool
    var lastFootstep: real
    /** Whether `ambientSound` is set. */
    var ambient: bool
    var heartbeat: Option<Cue>
    var warning: Option<Cue>
    /** How many continuous cues have been created so far. */
    var cuesCreated: nat
    /** The effects synthesised so far, in order. */
    var played: seq<string>

    /** Effects are registered only with a working audio context, and a
        running cue is one already created. */
    ghost predicate Valid()
      reads this
    {
      (sounds == {} || (audio && sounds == EFFECTS)) &&
      (heartbeat.Some? ==> heartbeat.value.serial < cuesCreated) &&
      (warning.Some? ==> warning.value.serial < cuesCreated)
    }

    /** The constructor with initAudio: without Web Audio the manager
        starts disabled with no effects. */
    constructor (audioAvailable: bool)
      ensures Valid()
      ensures audio == audioAvailable && enabled == audioAvailable
      ensures sounds == (if audioAvailable then EFFECTS else {})
      ensures lastFootstep == 0.0 && !ambient && heartbeat == None && warning == None
      ensures cuesCreated == 0 && played == []
    {
      audio := audioAvailable;
      sounds := if audioAvailable then EFFECTS else {};
      enabled := audioAvailable;
      lastFootstep := 0.0;
      ambient := false;
      heartbeat, warning := None, None;
      cuesCreated := 0;
      played := [];
    }

    /** play: nothing when disabled or when the name is not registered;
        otherwise the effect is synthesised, and `ambient` starts the
        ambient loop unless it is already running. */
    method Play(name: string)
      requires Valid()
      modifies this
      ensures Valid()
      ensures enabled == old(enabled) && lastFootstep == old(lastFootstep)
      ensures heartbeat == old(heartbeat) && warning == old(warning) && cuesCreated == old(cuesCreated)
      ensures old(enabled) && name in sounds ==> played == old(played) + [name]
      ensures !(old(enabled) && name in sounds) ==> played == old(played)
      ensures ambient == (old(ambient) || (old(enabled) && name in sounds && name == "ambient"))
    {
      if !enabled {
        return;
      }
      if name !in sounds {
        return;
      }
      played := played + [name];
      if name == "ambient" && audio && !ambient {
        ambient := true;
      }
    }

    /** playFootstep: plays iff enabled, moving and more than 0.3 s after
        the last footstep (now is Date.now() / 1000), and only then moves
        the timestamp. */
    method PlayFootstep(moving: bool, now: real)
      requires Valid()
      modifies this
      ensures Valid()
      ensures enabled == old(enabled) && ambient == old(ambient)
      ensures heartbeat == old(heartbeat) && warning == old(warning) && cuesCreated == old(cuesCreated)
      ensures var fires := old(enabled) && moving && now - old(lastFootstep) > FOOTSTEP_DELAY;
              (fires ==> lastFootstep == now && played == old(played) + (if "footstep" in sounds then ["footstep"] else [])) &&
              (!fires ==> lastFootstep == old(lastFootstep) && played == old(played))
    {
      if !enabled || !moving {
        return;
      }
      if now - lastFootstep > FOOTSTEP_DELAY {
        Play("footstep");
        lastFootstep := now;
      }
    }

    /** toggleAmbient: nothing when disabled; otherwise stops a running
        ambient loop or plays `ambient`. */
    method ToggleAmbient()
      requires Valid()
      modifies this
      ensures Valid()
      ensures enabled == old(enabled) && lastFootstep == old(lastFootstep)
      ensures heartbeat == old(heartbeat) && warning == old(warning) && cuesCreated == old(cuesCreated)
      ensures !old(enabled) ==> ambient == old(ambient) && played == old(played)
      ensures old(enabled) && old(ambient) ==> !ambient && played == old(played)
      ensures old(enabled) && !old(ambient) ==>
                ambient == ("ambient" in sounds) &&
                played == old(played) + (if "ambient" in sounds then ["ambient"] else [])
    {
      if !enabled {
        return;
      }
      if ambient {
        ambient := false;
      } else {
        Play("ambient");
      }
    }

    /** toggleSound: flips the switch and returns its new value. Its call
        to stop the ambient loop on disabling runs after the switch is
        already off, so toggleAmbient returns at once and the loop stays
        set. */
    method ToggleSound() returns (on: bool)
      requires Valid()
      modifies this
      ensures Valid()
      ensures on == enabled && enabled == !old(enabled)
      ensures ambient == old(ambient) && played == old(played) && lastFootstep == old(lastFootstep)
      ensures heartbeat == old(heartbeat) && warning == old(warning) && cuesCreated == old(cuesCreated)
    {
      enabled := !enabled;
      if !enabled && ambient {
        ToggleAmbient();
      }
      return enabled;
    }

    /** createHeartbeatSound: with audio, sets the gain of the running
        heartbeat, or creates one at that gain. */
    method CreateHeartbeat(d: real)
      requires Valid()
      modifies this
      ensures Valid()
      ensures enabled == old(enabled) && ambient == old(ambient) && played == old(played)
      ensures lastFootstep == old(lastFootstep) && warning == old(warning)
      ensures !audio ==> heartbeat == old(heartbeat) && cuesCreated == old(cuesCreated)
      ensures audio && old(heartbeat).Some? ==>
                heartbeat == Some(Cue(old(heartbeat).value.serial, HeartbeatVolume(d))) && cuesCreated == old(cuesCreated)
      ensures audio && old(heartbeat).None? ==>
                heartbeat == Some(Cue(old(cuesCreated), HeartbeatVolume(d))) && cuesCreated == old(cuesCreated) + 1
    {
      if !audio {
        return;
      }
      var volume := HeartbeatVolume(d);
      if heartbeat.Some? {
        heartbeat := Some(heartbeat.value.(gain := volume));
        return;
      }
      heartbeat := Some(Cue(cuesCreated, volume));
      cuesCreated := cuesCreated + 1;
    }

    /** createWarningSound: as the heartbeat, with the warning gain. */
    method CreateWarning(d: real)
      requires Valid()
      modifies this
      ensures Valid()
      ensures enabled == old(enabled) && ambient == old(ambient) && played == old(played)
      ensures lastFootstep == old(lastFootstep) && heartbeat == old(heartbeat)
      ensures !audio ==> warning == old(warning) && cuesCreated == old(cuesCreated)
      ensures audio && old(warning).Some? ==>
                warning == Some(Cue(old(warning).value.serial, WarningVolume(d))) && cuesCreated == old(cuesCreated)
      ensures audio && old(warning).None? ==>
                warning == Some(Cue(old(cuesCreated), WarningVolume(d))) && cuesCreated == old(cuesCreated) + 1
    {
      if !audio {
        return;
      }
      var volume := WarningVolume(d);
      if warning.Some? {
        warning := Some(warning.value.(gain := volume));
        return;
      }
      warning := Some(Cue(cuesCreated, volume));
      cuesCreated := cuesCreated + 1;
    }

    /** stopHeartbeat: the cue is gone, whether or not it was running. */
    method StopHeartbeat()
      requires Valid()
      modifies this
      ensures Valid()
      ensures heartbeat == None
      ensures enabled == old(enabled) && ambient == old(ambient) && played == old(played)
      ensures lastFootstep == old(lastFootstep) && warning == old(warning) && cuesCreated == old(cuesCreated)
    {
      if heartbeat.Some? {
        heartbeat := None;
      }
    }

    /** stopWarning: the cue is gone, whether or not it was running. */
    method StopWarning()
      requires Valid()
      modifies this
      ensures Valid()
      ensures warning == None
      ensures enabled == old(enabled) && ambient == old(ambient) && played == old(played)
      ensures lastFootstep == old(lastFootstep) && heartbeat == old(heartbeat) && cuesCreated == old(cuesCreated)
    {
      if warning.Some? {
        warning := None;
      }
    }

    /** updateEnemyProximitySound: the cues the distance's tier calls for
        are running (with audio) at the tier's volumes, the others are
        stopped; running cues keep their identity. */
    method UpdateEnemyProximity(d: real)
      requires Valid()
      modifies this
      ensures Valid()
      ensures enabled == old(enabled) && ambient == old(ambient) && played == old(played)
      ensures lastFootstep == old(lastFootstep)
      ensures TierOf(enabled, d) == Silent ==> heartbeat == None && warning == None
      ensures TierOf(enabled, d) == HeartbeatOnly ==> warning == None
      ensures TierOf(enabled, d) == Both && audio ==>
                warning.Some? && warning.value.gain == WarningVolume(d) &&
                (old(warning).Some? ==> warning.value.serial == old(warning).value.serial)
      ensures TierOf(enabled, d) != Silent && audio ==>
                heartbeat.Some? && heartbeat.value.gain == HeartbeatVolume(d) &&
                (old(heartbeat).Some? ==> heartbeat.value.serial == old(heartbeat).value.serial)
      ensures TierOf(enabled, d) != Silent && !audio ==> heartbeat == old(heartbeat)
      ensures TierOf(enabled, d) == Both && !audio ==> warning == old(warning)
    {
      if !enabled {
        StopHeartbeat();
        StopWarning();
        return;
      }
      if d < WARNING_RANGE {
        CreateWarning(d);
        CreateHeartbeat(d);
      } else if d < HEARTBEAT_RANGE {
        StopWarning();
        CreateHeartbeat(d);
      } else {
        StopHeartbeat();
        StopWarning();
      }
    }
  }
}
