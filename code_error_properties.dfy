/** Properties that relate construction, rendering, `data` and `internal?`. */
module CodeErrorProperties {
  import opened RubyValue
  import opened CodeError

  /** `msg == :masked` on a known code: rendered masked by default, the entry's message kept underneath. */
  lemma MaskedArgumentMasksKnownCode<I>(codes: map<Value, Entry>, cfg: Config, code: Value, info: I)
    requires code in codes
    ensures Resolve(codes, cfg, code, MASKED, info).msg == codes[code].msg
    ensures Msg(cfg, Resolve(codes, cfg, code, MASKED, info), Nil) == Annotate(cfg, code, cfg.maskedMsg)
  {
  }

  /** A String `msg` on a known code replaces the entry's message and unmasks, even a masked entry. */
  lemma TextArgumentUnmasksKnownCode<I>(codes: map<Value, Entry>, cfg: Config, code: Value, s: string, info: I)
    requires code in codes
    ensures Msg(cfg, Resolve(codes, cfg, code, Str(s), info), Nil) == Annotate(cfg, code, Str(s))
  {
  }

  /** No `msg` on a known code: the entry decides both the text and the masking. */
  lemma NoArgumentKeepsEntry<I>(codes: map<Value, Entry>, cfg: Config, code: Value, info: I)
    requires code in codes
    ensures Msg(cfg, Resolve(codes, cfg, code, Nil, info), Nil) ==
            Annotate(cfg, code, if Truthy(codes[code].masked) then cfg.maskedMsg else codes[code].msg)
  {
  }

  /**
   * A key of `error_codes` equal to the success code keeps its entry (the key
   * check comes first) and, being the success code, is rendered without the code.
   */
  lemma KnownKeyBeatsSuccessCode<I>(codes: map<Value, Entry>, cfg: Config, msg: Value, info: I, masked: Value)
    requires cfg.success.code in codes
    ensures var e := Resolve(codes, cfg, cfg.success.code, msg, info);
      && e.code == cfg.success.code
      && e.status == codes[cfg.success.code].status
      && Msg(cfg, e, masked) == (if EffectiveMasked(e.masked, masked) then cfg.maskedMsg else e.msg)
    ensures msg == Nil && !Truthy(codes[cfg.success.code].masked) ==>
              Msg(cfg, Resolve(codes, cfg, cfg.success.code, msg, info), Nil) == codes[cfg.success.code].msg
  {
  }

  /** The success code: success status, unmasked by default, and its message rendered bare whatever `code_in_msg` says. */
  lemma SuccessRendersBare<I>(codes: map<Value, Entry>, cfg: Config, msg: Value, info: I)
    requires cfg.success.code !in codes
    ensures Resolve(codes, cfg, cfg.success.code, msg, info).status == cfg.success.status
    ensures !EffectiveMasked(Resolve(codes, cfg, cfg.success.code, msg, info).masked, Nil)
    ensures Msg(cfg, Resolve(codes, cfg, cfg.success.code, msg, info), Nil) == cfg.success.msg
    ensures Msg(cfg, Resolve(codes, cfg, cfg.success.code, msg, info), Bool(true)) == cfg.maskedMsg
  {
  }

  /** Every code that is neither a key nor the success code yields an internal error. */
  lemma UnknownCodeIsInternal<I>(codes: map<Value, Entry>, cfg: Config, code: Value, msg: Value, info: I)
    requires code !in codes && code != cfg.success.code
    ensures IsInternal(cfg, Resolve(codes, cfg, code, msg, info))
  {
  }

  /** `internal?` of a known code depends only on its entry's status. */
  lemma KnownCodeInternalIffEntryStatus<I>(codes: map<Value, Entry>, cfg: Config, code: Value, msg: Value, info: I)
    requires code in codes
    ensures IsInternal(cfg, Resolve(codes, cfg, code, msg, info)) <==> codes[code].status == cfg.internal.status
  {
  }

  /**
   * `:masked` given for a code that is neither a key, the success code nor a
   * String is not a masking request: `msg || internal msg` stores the symbol
   * itself as the message, annotated with the kept code (or the internal code
   * for `nil` and `false`).
   */
  lemma MaskedArgumentOnUnknownCodeIsText<I>(codes: map<Value, Entry>, cfg: Config, code: Value, info: I)
    requires code !in codes && code != cfg.success.code && !code.Str?
    ensures Resolve(codes, cfg, code, MASKED, info).msg == MASKED
    ensures Msg(cfg, Resolve(codes, cfg, code, MASKED, info), Nil) ==
            Annotate(cfg, Or(code, cfg.internal.code), MASKED)
  {
  }

  /** An explicit non-nil masking argument overrides whatever flag the error stores. */
  lemma ExplicitMaskBeatsStored<I>(cfg: Config, e: Error<I>, stored: Value, masked: Value)
    requires masked != Nil
    ensures Msg(cfg, e, masked) == Msg(cfg, e.(masked := stored), masked)
    ensures Msg(cfg, e, masked) == Annotate(cfg, e.code, if Truthy(masked) then cfg.maskedMsg else e.msg)
  {
  }

  /** Without an argument the stored flag decides, and a stored `nil` means unmasked. */
  lemma StoredMaskWithoutArgument<I>(cfg: Config, e: Error<I>)
    ensures Msg(cfg, e, Nil) == Msg(cfg, e, Bool(Truthy(e.masked)))
    ensures e.masked == Nil ==> Msg(cfg, e, Nil) == Annotate(cfg, e.code, e.msg)
  {
  }

  /** `data(m)` carries the error's status, code and info, and the same text `msg(m)` renders. */
  lemma DataAgreesWithMsg<I>(cfg: Config, e: Error<I>, masked: Value)
    ensures Data(cfg, e, masked).msg == Msg(cfg, e, masked)
    ensures Data(cfg, e, masked).status == e.status
    ensures Data(cfg, e, masked).code == e.code
    ensures Data(cfg, e, masked).info == e.info
  {
  }

  /**
   * With the code placed in the text, two different integer codes never render
   * the same message from the same text: the code can be read back.
   */
  lemma AnnotationIdentifiesCode(cfg: Config, text: Value, a: int, b: int)
    requires cfg.codeInMsg == APPEND || cfg.codeInMsg == PREPAND
    requires Int(a) != cfg.success.code && Int(b) != cfg.success.code
    requires Annotate(cfg, Int(a), text) == Annotate(cfg, Int(b), text)
    ensures a == b
  {
    var t, da, db := ToS(text), IntToS(a), IntToS(b);
    var s := Annotate(cfg, Int(a), text).s;
    if cfg.codeInMsg == APPEND {
      assert s == t + "(" + da + ")" == t + "(" + db + ")";
      assert |da| == |db|;
      assert s[|t| + 1 .. |s| - 1] == da;
      assert s[|t| + 1 .. |s| - 1] == db;
    } else {
      var pa, pb := "(" + da + ")", "(" + db + ")";
      assert s == pa + t == pb + t;
      assert |pa| == |pb|;
      assert s[..|pa|] == pa == pb;
      assert pa[1..|pa| - 1] == da;
      assert pb[1..|pb| - 1] == db;
    }
    IntToSInjective(a, b);
  }
}
