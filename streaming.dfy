/** The real-time page: poll the phone's sensor app, buffer six channels, score each
    full window as it arrives, keep a tally of the predicted labels, and alert by mail
    on distracted walking, either at once or after the run. */
module Streaming {
  import opened Common
  import opened Decimal
  import opened Labels
  import opened Features
  import opened Segmentation
  import opened Classifier

  // ---------------------------------------------------------------------------
  // Devices and sensor buffers
  // ---------------------------------------------------------------------------

  /** The phone the sensor app runs on. */
  datatype Device = IPhone | Android

  /** The sensor buffer names of a device, in the order ax, ay, az, wx, wy, wz. */
  function ChannelKeys(d: Device): (keys: seq<string>)
    ensures |keys| == |CHANNELS|
  {
    match d
    case IPhone => ["lin_accX", "lin_accY", "lin_accZ", "gyroX", "gyroY", "gyroZ"]
    case Android => ["linX", "linY", "linZ", "gyrX", "gyrY", "gyrZ"]
  }

  function KeySet(d: Device): set<string> {
    set k | k in ChannelKeys(d)
  }

  /** Each device names its six channels apart, and the two devices share no name, so
      a buffer layout of one device has none of the other's buffers. */
  lemma ChannelKeysApart(d: Device, e: Device)
    ensures forall i, j :: 0 <= i < j < 6 ==> ChannelKeys(d)[i] != ChannelKeys(d)[j]
    ensures d != e ==> forall i :: 0 <= i < 6 ==> ChannelKeys(d)[i] !in KeySet(e)
  {
    var a := ChannelKeys(d);
    assert forall i :: 0 <= i < 6 ==> |a[i]| >= 4 && |a[i]| <= 8;
    if d != e {
      var b := ChannelKeys(e);
      forall i | 0 <= i < 6 ensures a[i] !in KeySet(e) {
        forall j | 0 <= j < 6 ensures a[i] != b[j] {
          assert a[i][..3] != b[j][..3] || a[i][3] != b[j][3];
        }
      }
    }
  }

  /** The result of one `phyphox_get_data` call: no answer, or for each buffer name of
      the layout a value or `None`. */
  datatype Poll = Unavailable | Reading(values: map<string, Option<real>>)

  /** An answer carries an entry for every buffer name of the layout. */
  predicate PollFor(p: Poll, d: Device) {
    p.Reading? ==> forall k :: k in KeySet(d) ==> k in p.values
  }

  /** What an answer appends to buffer `k`: its value, or nothing when it is `None`. */
  function Read(values: map<string, Option<real>>, k: string): seq<real> {
    if k in values && values[k].Some? then [values[k].value] else []
  }

  /** Python's `xs[a:b]` for non-negative bounds: both ends clamp to the length. */
  function PySlice(xs: seq<real>, a: nat, b: nat): (r: seq<real>)
    ensures a <= b <= |xs| ==> r == xs[a..b]
    ensures |r| <= |xs| && (b <= a ==> r == [])
    ensures a <= b ==> |r| == Min(b, |xs|) - Min(a, Min(b, |xs|))
  {
    var hi := Min(b, |xs|);
    var lo := Min(a, hi);
    xs[lo..hi]
  }

  /** All columns have the length of the first. */
  predicate SameLengths(cols: seq<seq<real>>) {
    forall i :: 0 <= i < |cols| ==> |cols[i]| == |cols[0]|
  }

  /** The `df_dict` of a scoring turn: for ax..wz the slice `[start:end]` of the buffer
      the device names for that channel, read in channel order. A name the buffers lack
      raises `KeyError`; slices of unequal lengths make the table constructor raise. */
  function WindowColumns(buffers: map<string, seq<real>>, os: Device, start: nat, end: nat): (r: Result<seq<seq<real>>>)
    ensures r.Success? <==> ((forall k :: k in KeySet(os) ==> k in buffers) &&
      SameLengths(seq(6, i requires 0 <= i < 6 => PySlice(buffers[ChannelKeys(os)[i]], start, end))))
    ensures r.Success? ==> (|r.value| == 6 &&
      forall i :: 0 <= i < 6 ==> r.value[i] == PySlice(buffers[ChannelKeys(os)[i]], start, end))
    ensures (exists k :: k in KeySet(os) && k !in buffers) ==>
      r.Failure? && r.error.MissingBuffer? && r.error.key in KeySet(os) && r.error.key !in buffers
    ensures r.Failure? && r.error.MissingBuffer? ==> Some(r.error.key) == FirstAbsent(ChannelKeys(os), buffers.Keys)
    ensures ((forall k :: k in KeySet(os) ==> k in buffers) && r.Failure?) ==> r.error == LengthMismatch
  {
    var keys := ChannelKeys(os);
    var missing := FirstAbsent(keys, buffers.Keys);
    if missing.Some? then Failure(MissingBuffer(missing.value))
    else
      var cols := seq(6, i requires 0 <= i < 6 => PySlice(buffers[keys[i]], start, end));
      if SameLengths(cols) then Success(cols) else Failure(LengthMismatch)
  }

  /** With every buffer of the device at least `end` long, the window is `end - start`
      samples of each channel. */
  lemma WindowColumnsFull(buffers: map<string, seq<real>>, os: Device, start: nat, end: nat)
    requires start <= end
    requires forall k :: k in KeySet(os) ==> k in buffers && |buffers[k]| >= end
    ensures var r := WindowColumns(buffers, os, start, end);
      r.Success? && forall i :: 0 <= i < 6 ==> r.value[i] == buffers[ChannelKeys(os)[i]][start..end]
  {
    var keys := ChannelKeys(os);
    assert forall i :: 0 <= i < 6 ==> keys[i] in KeySet(os);
  }

  /** When one buffer of the device already holds `end` samples, the window builds
      exactly when every buffer of the device does. */
  lemma WindowColumnsExactly(buffers: map<string, seq<real>>, os: Device, start: nat, end: nat, shown: string)
    requires start < end && shown in KeySet(os) && shown in buffers && |buffers[shown]| >= end
    ensures WindowColumns(buffers, os, start, end).Success? <==>
      forall k :: k in KeySet(os) ==> k in buffers && |buffers[k]| >= end
  {
    var keys := ChannelKeys(os);
    assert forall i :: 0 <= i < 6 ==> keys[i] in KeySet(os);
    if forall k :: k in KeySet(os) ==> k in buffers && |buffers[k]| >= end {
      WindowColumnsFull(buffers, os, start, end);
    } else if forall k :: k in KeySet(os) ==> k in buffers {
      var cols := seq(6, i requires 0 <= i < 6 => PySlice(buffers[keys[i]], start, end));
      var k :| k in KeySet(os) && |buffers[k]| < end;
      var i :| 0 <= i < 6 && keys[i] == k;
      var s :| 0 <= s < 6 && keys[s] == shown;
      assert |cols[s]| == end - start;
      assert |cols[i]| < end - start;
      assert !SameLengths(cols);
    }
  }

  // ---------------------------------------------------------------------------
  // Labels and the tally
  // ---------------------------------------------------------------------------

  const STOP_LABEL: string := "Stop"
  const DW_LABEL: string := "Distracted Walking"
  const NDW_LABEL: string := "Not Distracted Walking"
  const ERROR_LABEL: string := "Error"

  /** The keys of `results`. */
  function TallyKeys(): set<string> {
    {DW_LABEL, NDW_LABEL, STOP_LABEL}
  }

  /** `pred_data`'s answer for the classifier's result: code 0 is "Stop", 1 is
      "Distracted Walking", every other code is "Not Distracted Walking", and a raising
      classifier gives "Error". */
  function PredLabel(code: Option<int>): string {
    match code
    case None => ERROR_LABEL
    case Some(c) => if c == 0 then STOP_LABEL else if c == 1 then DW_LABEL else NDW_LABEL
  }

  /** A label has a tally entry exactly when the classifier answered; "Error" has none. */
  lemma PredLabelInTally(code: Option<int>)
    ensures PredLabel(code) in TallyKeys() <==> code.Some?
    ensures code.None? ==> PredLabel(code) == ERROR_LABEL
  {
    if code.None? {
      assert ERROR_LABEL[0] == 'E';
      assert ERROR_LABEL != DW_LABEL && ERROR_LABEL != NDW_LABEL && ERROR_LABEL != STOP_LABEL;
    }
  }

  /** Unlike the training page, `pred_data` gives no code its own name: the codes of
      "Stop" agree, every code other than 0 and 1 answers "Not Distracted Walking", and
      for no code does the real-time label equal the training page's raw-number name. */
  lemma PredLabelVersusDisplayName(c: int)
    ensures c == 0 ==> PredLabel(Some(c)) == DisplayName(c)
    ensures c != 0 && c != 1 ==> PredLabel(Some(c)) == NDW_LABEL
    ensures !(0 <= c <= 2) ==> PredLabel(Some(c)) != DisplayName(c)
    ensures c == 1 ==> PredLabel(Some(c)) != DisplayName(c)
  {
    if !(0 <= c <= 2) {
      var d := DisplayName(c);
      assert d[0] == '-' || IsDigit(d[0]);
      assert NDW_LABEL[0] == 'N';
    }
    if c == 1 {
      assert DisplayName(1)[10] == '\n';
      assert DW_LABEL[10] == ' ';
    }
  }

  /** How often `l` occurs in the predicted labels `h`. */
  function Count(h: seq<string>, l: string): nat {
    if h == [] then 0 else Count(h[..|h| - 1], l) + (if h[|h| - 1] == l then 1 else 0)
  }

  /** The tally after the labels `h`: `results` starts with the three labels at 0. */
  function TallyOf(h: seq<string>): map<string, nat> {
    map[DW_LABEL := Count(h, DW_LABEL), NDW_LABEL := Count(h, NDW_LABEL), STOP_LABEL := Count(h, STOP_LABEL)]
  }

  predicate TallyLabelsOnly(h: seq<string>) {
    forall j :: 0 <= j < |h| ==> h[j] in TallyKeys()
  }

  /** Each classification adds one to its own label and leaves the others. */
  lemma TallyOfAppend(h: seq<string>, l: string)
    requires l in TallyKeys()
    ensures TallyOf(h + [l]) == TallyOf(h)[l := TallyOf(h)[l] + 1]
  {
    assert (h + [l])[..|h|] == h;
  }

  /** The three counts add up to the number of classifications. */
  lemma {:induction false} TallySum(h: seq<string>)
    requires TallyLabelsOnly(h)
    ensures TallyOf(h)[DW_LABEL] + TallyOf(h)[NDW_LABEL] + TallyOf(h)[STOP_LABEL] == |h|
  {
    if h != [] {
      var init := h[..|h| - 1];
      assert TallyLabelsOnly(init) by {
        forall j | 0 <= j < |init| ensures init[j] in TallyKeys() {
          assert init[j] == h[j];
        }
      }
      TallySum(init);
      assert h[|h| - 1] in TallyKeys();
    }
  }

  lemma {:induction false} CountZero(h: seq<string>, l: string)
    ensures Count(h, l) == 0 <==> l !in h
  {
    if h != [] {
      var init := h[..|h| - 1];
      CountZero(init, l);
      assert h == init + [h[|h| - 1]];
    }
  }

  // ---------------------------------------------------------------------------
  // The scoring cursor
  // ---------------------------------------------------------------------------

  /** One more sample in the shown buffer: a window is due exactly when the buffer
      reaches the cursor's end, and the classification count keeps matching the stride
      progression over the buffer. */
  lemma WindowCountStep(len: nat, k: nat, w: int, stride: int)
    requires ValidParams(w, stride) && k == FiniteWindowCount(len, w, stride) && len < k * stride + w
    ensures len + 1 < k * stride + w ==> FiniteWindowCount(len + 1, w, stride) == k
    ensures len + 1 == k * stride + w ==>
      FiniteWindowCount(len + 1, w, stride) == k + 1 && len + 1 < (k + 1) * stride + w
  {
    assert (k + 1) * stride == k * stride + stride;
    if len + 1 >= w {
      var d := len + 1 - w;
      if len >= w {
        DivBounds(len - w, stride);
        assert (k - 1) * stride <= len - w;
      } else {
        assert k == 0;
      }
      if d < k * stride {
        assert (k - 1) * stride == k * stride - stride;
        DivUnique(d, stride, k - 1, d - (k - 1) * stride);
      } else if d == k * stride {
        DivUnique(d, stride, k, 0);
      }
    }
  }

  // ---------------------------------------------------------------------------
  // Mail
  // ---------------------------------------------------------------------------

  /** The body `send_mail` sends: a plain warning, or the estimated time spent walking
      distracted in seconds and minutes. */
  datatype Mail = Notice | Estimate(seconds: real, minutes: real)

  /** `dw_count`: the published "Distracted Walking" count, 0 while the published table
      is the placeholder without that column. */
  function DistractedCount(published: Option<map<string, nat>>): nat {
    if published.Some? && DW_LABEL in published.value then published.value[DW_LABEL] else 0
  }

  /** The mail body for the settings in force: the warning when the timing setting is 0,
      otherwise the estimate with a stride of 30 when none is stored. */
  function MailBody(timing: int, published: Option<map<string, nat>>, strideSetting: Option<int>): (m: Mail)
    ensures m.Notice? <==> timing == 0
  {
    if timing == 0 then Notice
    else
      var stride := strideSetting.GetOr(30);
      var sec := DistractedCount(published) as real * (stride as real / 60.0);
      Estimate(sec, sec / 60.0)
  }

  /** The estimate counts each distracted classification as `stride` new samples at
      60 samples a second, and its minutes are its seconds over 60. */
  lemma EstimateMeaning(timing: int, published: Option<map<string, nat>>, strideSetting: Option<int>)
    requires timing != 0
    ensures var m := MailBody(timing, published, strideSetting);
      m.seconds * 60.0 == (DistractedCount(published) * strideSetting.GetOr(30)) as real &&
      m.minutes * 60.0 == m.seconds
  {
    var c := DistractedCount(published) as real;
    var s := strideSetting.GetOr(30) as real;
    assert c * (s / 60.0) * 60.0 == c * s;
  }

  // ---------------------------------------------------------------------------
  // Session state shared with the page
  // ---------------------------------------------------------------------------

  /** The session entries the real-time loop and `send_mail` share. */
  class AppSession {
    /** `session_state["email"]`: a deferred mail is due. */
    var emailPending: bool
    /** `session_state["df"]`: the last published tally; `None` is the placeholder
        table the session starts with. */
    var published: Option<map<string, nat>>
    /** The mails handed to the mail server, oldest first. */
    var outbox: seq<Mail>
    /** `session_state["email_send_timing"]`: 1 defers the mail to the end of the run. */
    const timing: int
    /** `session_state.get("stride")`. */
    const strideSetting: Option<int>

    constructor (timing: int, strideSetting: Option<int>)
      ensures this.timing == timing && this.strideSetting == strideSetting
      ensures !emailPending && published == None && outbox == []
    {
      this.timing := timing;
      this.strideSetting := strideSetting;
      emailPending := false;
      published := None;
      outbox := [];
    }

    /** `send_mail`: one mail whose body follows the settings and the published tally. */
    method SendMail()
      modifies this`outbox
      ensures outbox == old(outbox) + [MailBody(timing, published, strideSetting)]
    {
      outbox := outbox + [MailBody(timing, published, strideSetting)];
    }

    /** The end of the page: a due deferred mail is sent once and the flag cleared. */
    method FinishPage()
      modifies this`outbox, this`emailPending
      ensures !emailPending
      ensures outbox == old(outbox) + (if old(emailPending) then [MailBody(timing, published, strideSetting)] else [])
    {
      if emailPending {
        SendMail();
        emailPending := false;
      }
    }
  }

  // ---------------------------------------------------------------------------
  // The polling loop of `plot_data`, on values
  // ---------------------------------------------------------------------------

  /** What stays fixed during a run. */
  datatype Settings = Settings(
    layout: Device, os: Device, w: nat, stride: nat, plotKey: string,
    stats: Statistics, classify: Model, timing: int, strideSetting: Option<int>, mailsBefore: nat)

  /** What a turn of the loop may change: buffers, cursor, tally, the one-shot flag, the
      labels classified so far, whether a tally has been published, and the session's
      mail flag, sent mails and published tally. */
  datatype LoopState = LoopState(
    buffers: map<string, seq<real>>, startIndex: nat, endIndex: nat, tally: map<string, nat>,
    emailFlag: bool, history: seq<string>, polled: bool,
    emailPending: bool, outbox: seq<Mail>, published: Option<map<string, nat>>)

  /** What holds between turns. The cursor spans `w` samples and has slid once per
      classification; the shown buffer is short of the cursor's end, and the number of
      classifications is the number of full windows of the stride progression over
      it; the tally counts the classified labels. With immediate alerts the flag is
      cleared exactly once a distracted label was seen and one mail was sent then; with
      deferred alerts the flag stays set and a distracted label marks the mail as due. */
  predicate LoopInvariant(c: Settings, s: LoopState) {
    CursorInvariant(c, s) && RecordInvariant(c, s)
  }

  /** The cursor part of `LoopInvariant`. */
  predicate CursorInvariant(c: Settings, s: LoopState) {
    && ValidParams(c.w, c.stride)
    && c.plotKey in KeySet(c.layout)
    && s.buffers.Keys == KeySet(c.layout)
    && s.endIndex == s.startIndex + c.w
    && s.startIndex == |s.history| * c.stride
    && |s.buffers[c.plotKey]| < s.endIndex
    && |s.history| == FiniteWindowCount(|s.buffers[c.plotKey]|, c.w, c.stride)
  }

  /** The tally and mail part of `LoopInvariant`. */
  predicate RecordInvariant(c: Settings, s: LoopState) {
    && TallyLabelsOnly(s.history)
    && s.tally == TallyOf(s.history)
    && (c.timing != 1 ==> (s.emailFlag <==> DW_LABEL !in s.history))
    && (c.timing == 1 ==> s.emailFlag && (DW_LABEL in s.history ==> s.emailPending))
    && |s.outbox| == c.mailsBefore + (if s.emailFlag then 0 else 1)
    && (s.polled ==> s.published == Some(s.tally))
  }

  /** New buffers after an answered poll: the same names, and the shown one at most one
      sample longer. */
  predicate Grown(c: Settings, old_buffers: map<string, seq<real>>, buffers: map<string, seq<real>>)
    requires c.plotKey in old_buffers
  {
    buffers.Keys == old_buffers.Keys &&
    |old_buffers[c.plotKey]| <= |buffers[c.plotKey]| <= |old_buffers[c.plotKey]| + 1
  }

  /** A turn that scores no window: only the buffers change, and the tally is published. */
  function AfterIdle(s: LoopState, buffers: map<string, seq<real>>): LoopState {
    s.(buffers := buffers, polled := true, published := Some(s.tally))
  }

  /** A turn that classifies a window as `l`: count it, alert, slide the cursor by the
      stride, publish the tally. */
  function AfterScore(c: Settings, s: LoopState, buffers: map<string, seq<real>>, l: string): LoopState
    requires l in s.tally
  {
    var tally := s.tally[l := s.tally[l] + 1];
    var deferred := l == DW_LABEL && c.timing == 1;
    var immediate := l == DW_LABEL && c.timing != 1 && s.emailFlag;
    s.(buffers := buffers, tally := tally, history := s.history + [l],
       emailPending := s.emailPending || deferred,
       emailFlag := s.emailFlag && !immediate,
       outbox := s.outbox + (if immediate then [MailBody(c.timing, s.published, c.strideSetting)] else []),
       startIndex := s.startIndex + c.stride, endIndex := s.endIndex + c.stride,
       polled := true, published := Some(tally))
  }

  /** Scoring replaces the buffers, whatever they were. */
  lemma AfterScoreReplacesBuffers(c: Settings, s: LoopState, buffers: map<string, seq<real>>, l: string)
    requires l in s.tally
    ensures AfterScore(c, s.(buffers := buffers), buffers, l) == AfterScore(c, s, buffers, l)
  {
  }

  /** The state `plot_data` starts from. */
  function InitialState(c: Settings, emailPending: bool, outbox: seq<Mail>, published: Option<map<string, nat>>): LoopState {
    LoopState(map k | k in KeySet(c.layout) :: [], 0, c.w, TallyOf([]), true, [], false,
              emailPending, outbox, published)
  }

  lemma InitialInvariant(c: Settings, emailPending: bool, outbox: seq<Mail>, published: Option<map<string, nat>>)
    requires ValidParams(c.w, c.stride) && c.plotKey in KeySet(c.layout) && |outbox| == c.mailsBefore
    ensures LoopInvariant(c, InitialState(c, emailPending, outbox, published))
  {
    CountZero([], DW_LABEL);
  }

  /** A turn in which the shown buffer stays short of the cursor keeps the invariant. */
  lemma IdleKeepsInvariant(c: Settings, s: LoopState, buffers: map<string, seq<real>>)
    requires LoopInvariant(c, s) && Grown(c, s.buffers, buffers)
    requires |buffers[c.plotKey]| < s.endIndex
    ensures LoopInvariant(c, AfterIdle(s, buffers))
  {
    var len := |s.buffers[c.plotKey]|;
    if |buffers[c.plotKey]| == len + 1 {
      WindowCountStep(len, |s.history|, c.w, c.stride);
    }
  }

  /** A turn in which the shown buffer reaches the cursor and the window is classified
      as a tally label keeps the invariant: this is the only way a window is counted. */
  lemma ScoreKeepsInvariant(c: Settings, s: LoopState, buffers: map<string, seq<real>>, l: string)
    requires LoopInvariant(c, s) && Grown(c, s.buffers, buffers)
    requires |buffers[c.plotKey]| >= s.endIndex && l in TallyKeys()
    ensures |buffers[c.plotKey]| == s.endIndex
    ensures LoopInvariant(c, AfterScore(c, s, buffers, l))
  {
    ScoreKeepsCursor(c, s, buffers, l);
    ScoreKeepsRecord(c, s, buffers, l);
  }

  lemma ScoreKeepsCursor(c: Settings, s: LoopState, buffers: map<string, seq<real>>, l: string)
    requires CursorInvariant(c, s) && Grown(c, s.buffers, buffers)
    requires |buffers[c.plotKey]| >= s.endIndex && l in s.tally
    ensures |buffers[c.plotKey]| == s.endIndex
    ensures CursorInvariant(c, AfterScore(c, s, buffers, l))
  {
    var k := |s.history|;
    WindowCountStep(|s.buffers[c.plotKey]|, k, c.w, c.stride);
    assert (k + 1) * c.stride == k * c.stride + c.stride;
  }

  lemma ScoreKeepsRecord(c: Settings, s: LoopState, buffers: map<string, seq<real>>, l: string)
    requires RecordInvariant(c, s) && l in TallyKeys()
    ensures l in s.tally && RecordInvariant(c, AfterScore(c, s, buffers, l))
  {
    var h := s.history + [l];
    TallyOfAppend(s.history, l);
    TallyLabelsOnlyAppend(s.history, l);
    assert DW_LABEL in h <==> DW_LABEL in s.history || l == DW_LABEL;
  }

  lemma TallyLabelsOnlyAppend(h: seq<string>, l: string)
    requires TallyLabelsOnly(h) && l in TallyKeys()
    ensures TallyLabelsOnly(h + [l])
  {
    forall j | 0 <= j < |h| + 1 ensures (h + [l])[j] in TallyKeys() {
      if j < |h| { assert (h + [l])[j] == h[j]; }
    }
  }

  /** The buffers after an answer: each buffer grows by its value, if any. */
  function Appended(buffers: map<string, seq<real>>, values: map<string, Option<real>>): (r: map<string, seq<real>>)
    ensures r.Keys == buffers.Keys
  {
    map k | k in buffers :: buffers[k] + Read(values, k)
  }

  /** Appending the value of the `i`-th of distinct keys to its buffer extends the
      append to the first `i + 1` keys. */
  lemma AppendedOneKey(before: map<string, seq<real>>, cur: map<string, seq<real>>, keys: seq<string>,
                       i: nat, values: map<string, Option<real>>)
    requires i < |keys| && keys[i] in cur && cur.Keys == before.Keys
    requires forall j, k :: 0 <= j < k < |keys| ==> keys[j] != keys[k]
    requires forall k :: k in before ==> cur[k] == before[k] + (if k in keys[..i] then Read(values, k) else [])
    ensures var key := keys[i];
      var next := if key in values && values[key].Some? then cur[key := cur[key] + [values[key].value]] else cur;
      next.Keys == before.Keys &&
      forall k :: k in before ==> next[k] == before[k] + (if k in keys[..i + 1] then Read(values, k) else [])
  {
    var key := keys[i];
    assert keys[..i + 1] == keys[..i] + [key];
    assert key !in keys[..i];
  }

  /** Buffers that grew each by its value are the appended buffers. */
  lemma AppendedAll(before: map<string, seq<real>>, after: map<string, seq<real>>, values: map<string, Option<real>>)
    requires after.Keys == before.Keys
    requires forall k :: k in before ==> after[k] == before[k] + Read(values, k)
    ensures after == Appended(before, values)
  {
  }

  /** One turn of the loop for an answered poll, as the result the loop continues or
      stops with and the state after it. A window is due once the shown buffer reaches
      the cursor's end; building it or counting its label may raise, which ends the run
      with the buffers grown and nothing else changed. */
  function Turn(c: Settings, s: LoopState, values: map<string, Option<real>>): (t: (Result<bool>, LoopState))
    requires c.plotKey in s.buffers
    ensures t.1.buffers.Keys == s.buffers.Keys
  {
    var b := Appended(s.buffers, values);
    if |b[c.plotKey]| < s.endIndex then (Success(false), AfterIdle(s, b))
    else
      var cols := WindowColumns(b, c.os, s.startIndex, s.endIndex);
      if cols.Failure? then (Failure(cols.error), s.(buffers := b))
      else
        var l := PredLabel(c.classify(ChannelFeatures(c.stats, cols.value)));
        if l !in s.tally then (Failure(UnknownTallyKey(l)), s.(buffers := b))
        else (Success(true), AfterScore(c, s, b, l))
  }

  /** A turn that carries on keeps the invariant. */
  lemma TurnKeepsInvariant(c: Settings, s: LoopState, values: map<string, Option<real>>)
    requires LoopInvariant(c, s)
    ensures Turn(c, s, values).0.Success? ==> LoopInvariant(c, Turn(c, s, values).1)
  {
    var b := Appended(s.buffers, values);
    assert Grown(c, s.buffers, b);
    if |b[c.plotKey]| < s.endIndex {
      IdleKeepsInvariant(c, s, b);
    } else {
      var cols := WindowColumns(b, c.os, s.startIndex, s.endIndex);
      if cols.Success? {
        var l := PredLabel(c.classify(ChannelFeatures(c.stats, cols.value)));
        if l in s.tally {
          ScoreKeepsInvariant(c, s, b, l);
        }
      }
    }
  }

  /** At most one window per turn, and only once the shown buffer reaches the cursor's
      end: the cursor then slides by exactly the stride. */
  lemma ScoreSlidesOnce(c: Settings, s: LoopState, buffers: map<string, seq<real>>, l: string)
    requires LoopInvariant(c, s) && Grown(c, s.buffers, buffers) && |buffers[c.plotKey]| >= s.endIndex
    requires l in TallyKeys()
    ensures var t := AfterScore(c, s, buffers, l);
      |t.history| == |s.history| + 1 && t.startIndex == s.startIndex + c.stride &&
      |t.buffers[c.plotKey]| < t.endIndex &&
      t.tally[DW_LABEL] + t.tally[NDW_LABEL] + t.tally[STOP_LABEL] == |t.history|
  {
    ScoreKeepsInvariant(c, s, buffers, l);
    TallySum(AfterScore(c, s, buffers, l).history);
  }

  /** A poll the device did not answer is skipped; an answer is a `Turn`. */
  function PollTurn(c: Settings, s: LoopState, p: Poll): (t: (Result<bool>, LoopState))
    requires c.plotKey in s.buffers
    ensures t.1.buffers.Keys == s.buffers.Keys
  {
    if p.Unavailable? then (Success(false), s) else Turn(c, s, p.values)
  }

  /** How a run over a sequence of polls ends: completed or raised, after how many
      polls, in which state. */
  datatype RunOutcome = RunOutcome(result: Result<()>, consumed: nat, state: LoopState)

  function Shifted(o: RunOutcome, n: nat): RunOutcome {
    o.(consumed := o.consumed + n)
  }

  /** The loop of `plot_data` over the polls in order: each poll is a turn, and the
      first turn that raises ends the run. */
  function RunPolls(c: Settings, s: LoopState, polls: seq<Poll>): (o: RunOutcome)
    requires c.plotKey in s.buffers
    ensures o.consumed <= |polls|
    ensures o.result.Success? ==> o.consumed == |polls|
    ensures o.result.Failure? ==> 1 <= o.consumed
    decreases |polls|
  {
    if polls == [] then RunOutcome(Success(()), 0, s)
    else
      var t := PollTurn(c, s, polls[0]);
      if t.0.Failure? then RunOutcome(Failure(t.0.error), 1, t.1)
      else Shifted(RunPolls(c, t.1, polls[1..]), 1)
  }

  /** One poll of a run, unfolded. */
  lemma RunPollsCons(c: Settings, s: LoopState, polls: seq<Poll>)
    requires c.plotKey in s.buffers && polls != []
    ensures var t := PollTurn(c, s, polls[0]);
      RunPolls(c, s, polls) ==
        if t.0.Failure? then RunOutcome(Failure(t.0.error), 1, t.1)
        else Shifted(RunPolls(c, t.1, polls[1..]), 1)
  {
  }

  /** History `h` extends `g` by at most `k` labels. */
  predicate ExtendsBy(g: seq<string>, h: seq<string>, k: nat) {
    |g| <= |h| <= |g| + k && h[..|g|] == g
  }

  lemma ExtendsByTrans(f: seq<string>, g: seq<string>, h: seq<string>, k: nat, m: nat)
    requires ExtendsBy(f, g, k) && ExtendsBy(g, h, m)
    ensures ExtendsBy(f, h, k + m)
  {
    assert h[..|f|] == h[..|g|][..|f|];
  }

  /** A turn adds at most one label to the history. */
  lemma TurnExtendsHistory(c: Settings, s: LoopState, values: map<string, Option<real>>)
    requires c.plotKey in s.buffers
    ensures ExtendsBy(s.history, Turn(c, s, values).1.history, 1)
  {
    var t := Turn(c, s, values);
    if t.1.history != s.history {
      var b := Appended(s.buffers, values);
      var cols := WindowColumns(b, c.os, s.startIndex, s.endIndex);
      var l := PredLabel(c.classify(ChannelFeatures(c.stats, cols.value)));
      assert t.1 == AfterScore(c, s, b, l);
      assert (s.history + [l])[..|s.history|] == s.history;
    }
  }

  /** One poll keeps the invariant when it carries on and adds at most one label. */
  lemma PollTurnKeepsInvariant(c: Settings, s: LoopState, p: Poll)
    requires LoopInvariant(c, s)
    ensures var t := PollTurn(c, s, p);
      (t.0.Success? ==> LoopInvariant(c, t.1)) && ExtendsBy(s.history, t.1.history, 1)
  {
    if p.Reading? {
      TurnKeepsInvariant(c, s, p.values);
      TurnExtendsHistory(c, s, p.values);
    }
  }

  /** A completed run keeps the invariant, and the labels classified during any run only
      extend the history, by at most one per poll. */
  lemma {:induction false} RunPollsKeepsInvariant(c: Settings, s: LoopState, polls: seq<Poll>)
    requires LoopInvariant(c, s)
    ensures var o := RunPolls(c, s, polls);
      (o.result.Success? ==> LoopInvariant(c, o.state)) && ExtendsBy(s.history, o.state.history, o.consumed)
    decreases |polls|
  {
    if polls != [] {
      var t := PollTurn(c, s, polls[0]);
      PollTurnKeepsInvariant(c, s, polls[0]);
      if t.0.Success? {
        RunPollsKeepsInvariant(c, t.1, polls[1..]);
        var o := RunPolls(c, t.1, polls[1..]);
        ExtendsByTrans(s.history, t.1.history, o.state.history, 1, o.consumed);
      }
    }
  }

  // ---------------------------------------------------------------------------
  // The polling loop of `plot_data`, in place
  // ---------------------------------------------------------------------------

  /** One run of `plot_data`: buffers, cursor, tally and the one-shot mail flag. */
  class StreamSession {
    const app: AppSession
    /** The buffer names the poller fills (`select_values`). */
    const layout: Device
    /** `session_state["OS"]`, which picks the buffer names a window is read from. */
    const os: Device
    const w: nat
    const stride: nat
    /** The buffer whose length decides when a window is due. */
    const plotKey: string
    const stats: Statistics
    const classify: Model

    var buffers: map<string, seq<real>>
    var startIndex: nat
    var endIndex: nat
    var tally: map<string, nat>
    var emailFlag: bool

    /** The labels classified so far, in order. */
    ghost var history: seq<string>
    /** Whether some poll was answered, so that the tally has been published. */
    ghost var polled: bool
    /** The number of mails sent before the run. */
    ghost const mailsBefore: nat

    ghost function Config(): Settings {
      Settings(layout, os, w, stride, plotKey, stats, classify, app.timing, app.strideSetting, mailsBefore)
    }

    ghost function State(): LoopState
      reads this, app
    {
      LoopState(buffers, startIndex, endIndex, tally, emailFlag, history, polled,
                app.emailPending, app.outbox, app.published)
    }

    ghost predicate Valid()
      reads this, app
    {
      LoopInvariant(Config(), State())
    }

    constructor (app: AppSession, layout: Device, os: Device, w: nat, stride: nat, plotKey: string,
                 stats: Statistics, classify: Model)
      requires ValidParams(w, stride) && plotKey in KeySet(layout)
      ensures Valid()
      ensures this.app == app && this.layout == layout && this.os == os && this.w == w &&
        this.stride == stride && this.plotKey == plotKey && this.stats == stats && this.classify == classify
      ensures mailsBefore == |app.outbox|
      ensures State() == InitialState(Config(), app.emailPending, app.outbox, app.published)
    {
      this.app := app;
      this.layout := layout;
      this.os := os;
      this.w := w;
      this.stride := stride;
      this.plotKey := plotKey;
      this.stats := stats;
      this.classify := classify;
      buffers := map k | k in KeySet(layout) :: [];
      startIndex := 0;
      endIndex := w;
      tally := map[DW_LABEL := 0, NDW_LABEL := 0, STOP_LABEL := 0];
      emailFlag := true;
      history := [];
      polled := false;
      mailsBefore := |app.outbox|;
      new;
      InitialInvariant(Config(), app.emailPending, app.outbox, app.published);
    }

    /** Append each value of the answer to its buffer, skipping `None`. */
    method AppendReading(values: map<string, Option<real>>)
      requires buffers.Keys == KeySet(layout)
      modifies this`buffers
      ensures buffers == Appended(old(buffers), values)
    {
      var keys := ChannelKeys(layout);
      ChannelKeysApart(layout, layout);
      ghost var before := buffers;
      for i := 0 to 6
        invariant buffers.Keys == before.Keys
        invariant forall k :: k in before ==>
          buffers[k] == before[k] + (if k in keys[..i] then Read(values, k) else [])
      {
        var key := keys[i];
        AppendedOneKey(before, buffers, keys, i, values);
        if key in values && values[key].Some? {
          buffers := buffers[key := buffers[key] + [values[key].value]];
        }
      }
      assert keys[..6] == keys;
      AppendedAll(before, buffers, values);
    }

    /** The alert after a distracted classification: mark the deferred mail as due, or
        the first time send the mail at once. */
    method Alert()
      modifies app`emailPending, app`outbox, this`emailFlag
      ensures app.timing == 1 ==> app.emailPending && emailFlag == old(emailFlag) && app.outbox == old(app.outbox)
      ensures app.timing != 1 ==> (!emailFlag && app.emailPending == old(app.emailPending) &&
        app.outbox == old(app.outbox) +
          (if old(emailFlag) then [MailBody(app.timing, app.published, app.strideSetting)] else []))
    {
      if app.timing == 1 {
        app.emailPending := true;
      } else if emailFlag {
        app.SendMail();
        emailFlag := false;
      }
    }

    /** The end of a turn that scored no window: publish the tally. */
    method Publish()
      modifies this`polled, app`published
      ensures State() == AfterIdle(old(State()), buffers)
    {
      app.published := Some(tally);
      polled := true;
    }

    /** The rest of a turn that classified its window as `l`: count it, alert, slide the
        cursor, publish the tally. */
    method Classified(l: string)
      requires l in tally
      modifies this`tally, this`history, this`emailFlag, this`startIndex, this`endIndex, this`polled, app
      ensures State() == AfterScore(Config(), old(State()), buffers, l)
    {
      tally := tally[l := tally[l] + 1];
      history := history + [l];
      if l == DW_LABEL {
        Alert();
      }
      startIndex := startIndex + stride;
      endIndex := endIndex + stride;
      app.published := Some(tally);
      polled := true;
    }

    /** One turn of the polling loop, as `Turn` states it. `Success(b)` continues the
        loop, `b` telling whether a window was scored; `Failure` is an exception that
        ends the run: a buffer name the device needs is missing, the slices differ in
        length, or the label is one the tally does not have. */
    method Step(p: Poll) returns (r: Result<bool>)
      requires Valid() && PollFor(p, layout)
      modifies this, app
      ensures p.Unavailable? ==> r == Success(false) && unchanged(this) && unchanged(app)
      ensures p.Reading? ==> (r, State()) == Turn(Config(), old(State()), p.values)
      ensures r.Success? ==> Valid()
    {
      if p.Unavailable? {
        return Success(false);
      }
      ghost var s0 := State();
      ghost var t := Turn(Config(), s0, p.values);
      TurnKeepsInvariant(Config(), s0, p.values);
      AppendReading(p.values);
      if |buffers[plotKey]| >= endIndex {
        r := ScoreDue(s0, p.values);
      } else {
        assert t == (Success(false), AfterIdle(s0, buffers));
        Publish();
        r := Success(false);
      }
    }

    /** The rest of a turn whose window is due, once the buffers have grown: build the
        window, classify it and count its label, or raise. */
    method ScoreDue(ghost s0: LoopState, ghost values: map<string, Option<real>>) returns (r: Result<bool>)
      requires plotKey in s0.buffers && State() == s0.(buffers := Appended(s0.buffers, values))
      requires |buffers[plotKey]| >= endIndex
      modifies this`tally, this`history, this`emailFlag, this`startIndex, this`endIndex, this`polled, app
      ensures (r, State()) == Turn(Config(), s0, values)
    {
      ghost var t := Turn(Config(), s0, values);
      var cols := WindowColumns(buffers, os, startIndex, endIndex);
      if cols.Failure? {
        assert t == (Failure(cols.error), s0.(buffers := buffers));
        return Failure(cols.error);
      }
      var l := PredLabel(classify(ChannelFeatures(stats, cols.value)));
      if l !in tally {
        assert t == (Failure(UnknownTallyKey(l)), s0.(buffers := buffers));
        return Failure(UnknownTallyKey(l));
      }
      assert t == (Success(true), AfterScore(Config(), s0, buffers, l));
      AfterScoreReplacesBuffers(Config(), s0, buffers, l);
      Classified(l);
      r := Success(true);
    }

    /** Polls in order until one raises. */
    method Run(polls: seq<Poll>) returns (r: Result<()>, consumed: nat)
      requires Valid() && forall i :: 0 <= i < |polls| ==> PollFor(polls[i], layout)
      modifies this, app
      ensures RunOutcome(r, consumed, State()) == RunPolls(Config(), old(State()), polls)
      ensures r.Success? ==> Valid()
    {
      ghost var s0 := State();
      consumed := 0;
      while consumed < |polls|
        invariant consumed <= |polls| && Valid()
        invariant RunPolls(Config(), s0, polls) == Shifted(RunPolls(Config(), State(), polls[consumed..]), consumed)
      {
        ghost var before := State();
        ghost var rest := polls[consumed..];
        RunPollsCons(Config(), before, rest);
        assert rest[0] == polls[consumed] && rest[1..] == polls[consumed + 1..];
        var step := Step(polls[consumed]);
        assert (step, State()) == PollTurn(Config(), before, polls[consumed]);
        consumed := consumed + 1;
        if step.Failure? {
          return Failure(step.error), consumed;
        }
      }
      return Success(()), consumed;
    }
  }
}
