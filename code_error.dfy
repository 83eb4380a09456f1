/**
 * `CodeError::Base`: turns a requested code, an optional message argument and
 * an info value into a resolved error, and renders that error's message under
 * an optional masking flag.
 *
 * A subclass supplies two hooks: `error_codes` (a map from code to entry;
 * the base class raises when it is not overridden) and `config` (success and
 * internal code/status/message, the masked message and where the code goes in
 * the rendered text). Both are parameters here.
 */
module CodeError {
  import opened Wrappers
  import opened RubyValue

  const SUCCESS_CODE: Value := Int(0)
  const SUCCESS_STATUS: Value := Sym("success")
  const SUCCESS_MSG: Value := Str("")

  const INTERNAL_CODE: Value := Int(99999)
  const INTERNAL_STATUS: Value := Sym("internal")
  const INTERNAL_MSG: Value := Str("An internal error occurs.")

  const MASKED_MSG: Value := Str("An error occurs.")

  /** The `msg` argument that asks for masking instead of giving a message. */
  const MASKED: Value := Sym("masked")
  /** `code_in_msg` settings: code after the text, or before it (the symbol is spelt `:prepand`). */
  const APPEND: Value := Sym("append")
  const PREPAND: Value := Sym("prepand")

  const NOT_IMPLEMENTED_MSG: string := "You should implement error_codes method in your code-based class."

  /** One `:success` or `:internal` group of the configuration. */
  datatype Reserved = Reserved(code: Value, status: Value, msg: Value)

  /** The value of the `config` hook. */
  datatype Config = Config(success: Reserved, internal: Reserved, maskedMsg: Value, codeInMsg: Value)

  /** The base class's `config`, which a subclass may override. */
  const DEFAULT_CONFIG: Config :=
    Config(Reserved(SUCCESS_CODE, SUCCESS_STATUS, SUCCESS_MSG),
           Reserved(INTERNAL_CODE, INTERNAL_STATUS, INTERNAL_MSG),
           MASKED_MSG, APPEND)

  /** One value of the `error_codes` map; a key the hash lacks reads as `Nil`. */
  datatype Entry = Entry(status: Value, msg: Value, masked: Value)

  /** The `RuntimeError` raised by the base class's `error_codes`. */
  datatype ConfigError = RuntimeError(message: string)

  /**
   * The state of a constructed error: `@code`, `@status`, `@msg`, `@masked`
   * and `@info`. An instance variable that construction never assigns reads as `Nil`.
   */
  datatype Error<I> = Error(code: Value, status: Value, msg: Value, masked: Value, info: I)

  /** The three ways construction treats a requested code. */
  datatype Branch = Known(entry: Entry) | SuccessCode | Unknown

  /** The key check comes before the success-code check. */
  function Classify(codes: map<Value, Entry>, cfg: Config, code: Value): (b: Branch)
    ensures b.Known? <==> code in codes
    ensures b.Known? ==> b.entry == codes[code]
    ensures b == SuccessCode <==> code !in codes && code == cfg.success.code
    ensures b == Unknown <==> code !in codes && code != cfg.success.code
  {
    if code in codes then Known(codes[code])
    else if code == cfg.success.code then SuccessCode
    else Unknown
  }

  /** The masked flag kept for a known code: forced by `:masked` or a String `msg`, else the entry's. */
  function KnownMasked(entry: Entry, msg: Value): Value {
    if msg == MASKED then Bool(true)
    else if msg.Str? then Bool(false)
    else Or(entry.masked, Bool(false))
  }

  /**
   * The error that construction produces once `error_codes` is available,
   * stated branch by branch.
   */
  function Resolve<I>(codes: map<Value, Entry>, cfg: Config, code: Value, msg: Value, info: I): (e: Error<I>)
    ensures e.info == info
    // a key of error_codes, even one equal to the success code
    ensures code in codes ==> e.code == code && e.status == codes[code].status
    ensures code in codes ==> e.masked != Nil
    ensures code in codes && msg == MASKED ==> e.masked == Bool(true) && e.msg == codes[code].msg
    ensures code in codes && msg.Str? ==> e.masked == Bool(false) && e.msg == msg
    ensures code in codes && msg != MASKED && !msg.Str? ==>
              e.msg == codes[code].msg && (Truthy(e.masked) <==> Truthy(codes[code].masked))
    // the success code
    ensures code !in codes && code == cfg.success.code ==>
              e == Error(cfg.success.code, cfg.success.status, cfg.success.msg, Nil, info)
    // every other code
    ensures code !in codes && code != cfg.success.code ==> e.status == cfg.internal.status && e.masked == Nil
    ensures code !in codes && code != cfg.success.code && code.Str? ==>
              e.code == cfg.internal.code && e.msg == code
    ensures code !in codes && code != cfg.success.code && !code.Str? && !Truthy(code) ==>
              e.code == cfg.internal.code && e.msg == Or(msg, cfg.internal.msg)
    ensures code !in codes && code != cfg.success.code && !code.Str? && Truthy(code) ==>
              e.code == code && e.msg == Or(msg, cfg.internal.msg)
  {
    match Classify(codes, cfg, code)
    case Known(entry) =>
      Error(code, entry.status, if msg.Str? then msg else entry.msg, KnownMasked(entry, msg), info)
    case SuccessCode =>
      Error(cfg.success.code, cfg.success.status, cfg.success.msg, Nil, info)
    case Unknown =>
      if code.Str? then Error(cfg.internal.code, cfg.internal.status, code, Nil, info)
      else Error(Or(code, cfg.internal.code), cfg.internal.status, Or(msg, cfg.internal.msg), Nil, info)
  }

  /** `Base.new(code, msg, info)`: fails exactly when the `error_codes` hook is not provided. */
  function New<I>(errorCodes: Option<map<Value, Entry>>, cfg: Config, code: Value, msg: Value, info: I)
    : (r: Result<Error<I>, ConfigError>)
    ensures r.Failure? <==> errorCodes.None?
    ensures r.Failure? ==> r.error == RuntimeError(NOT_IMPLEMENTED_MSG)
  {
    match errorCodes
    case None => Failure(RuntimeError(NOT_IMPLEMENTED_MSG))
    case Some(codes) => Success(Resolve(codes, cfg, code, msg, info))
  }

  /**
   * `initialize`: assigns the instance variables in the order the constructor
   * does, overwriting `@masked`, `@msg` and `@code` where it does.
   */
  method Initialize<I>(errorCodes: Option<map<Value, Entry>>, cfg: Config, code: Value, msg: Value, info: I)
    returns (r: Result<Error<I>, ConfigError>)
    ensures r == New(errorCodes, cfg, code, msg, info)
  {
    var atCode := code;
    var atInfo := info;
    var atStatus, atMsg, atMasked := Nil, Nil, Nil;
    if errorCodes.None? {
      return Failure(RuntimeError(NOT_IMPLEMENTED_MSG));
    }
    var codes := errorCodes.value;
    if code in codes {
      atStatus := codes[code].status;
      atMsg := codes[code].msg;
      atMasked := Or(codes[code].masked, Bool(false));
      if msg == MASKED {
        atMasked := Bool(true);
      } else if msg.Str? {
        atMasked := Bool(false);
        atMsg := msg;
      }
    } else if code == cfg.success.code {
      atCode := cfg.success.code;
      atStatus := cfg.success.status;
      atMsg := cfg.success.msg;
    } else {
      atStatus := cfg.internal.status;
      if code.Str? {
        atCode := cfg.internal.code;
        atMsg := code;
      } else {
        atCode := Or(code, cfg.internal.code);
        atMsg := Or(msg, cfg.internal.msg);
      }
    }
    r := Success(Error(atCode, atStatus, atMsg, atMasked, atInfo));
  }

  /** The masking in force: an explicit non-nil argument, else the stored flag, else false. */
  predicate EffectiveMasked(stored: Value, masked: Value) {
    Truthy(if masked == Nil then Or(stored, Bool(false)) else masked)
  }

  /** Places the code in the text according to `code_in_msg`; the success code is never placed. */
  function Annotate(cfg: Config, code: Value, text: Value): (r: Value)
    ensures code == cfg.success.code ==> r == text
    ensures code != cfg.success.code && cfg.codeInMsg == APPEND ==>
              r == Str(ToS(text) + "(" + ToS(code) + ")")
    ensures code != cfg.success.code && cfg.codeInMsg == PREPAND ==>
              r == Str("(" + ToS(code) + ")" + ToS(text))
    ensures cfg.codeInMsg != APPEND && cfg.codeInMsg != PREPAND ==> r == text
    // the text is changed exactly when a code is placed in it
    ensures r != text <==> code != cfg.success.code && (cfg.codeInMsg == APPEND || cfg.codeInMsg == PREPAND)
  {
    if code != cfg.success.code then
      if cfg.codeInMsg == APPEND then Str(ToS(text) + "(" + ToS(code) + ")")
      else if cfg.codeInMsg == PREPAND then Str("(" + ToS(code) + ")" + ToS(text))
      else text
    else text
  }

  /** `show_message(code, msg, masked)`, reading the instance's `@masked` as `stored`. */
  function ShowMessage(cfg: Config, stored: Value, code: Value, msg: Value, masked: Value): (r: Value)
    ensures EffectiveMasked(stored, masked) ==> r == Annotate(cfg, code, cfg.maskedMsg)
    ensures !EffectiveMasked(stored, masked) ==> r == Annotate(cfg, code, msg)
    // an explicit argument beats the stored flag, which beats false
    ensures masked != Nil ==> r == Annotate(cfg, code, if Truthy(masked) then cfg.maskedMsg else msg)
    ensures masked == Nil ==> r == Annotate(cfg, code, if Truthy(stored) then cfg.maskedMsg else msg)
  {
    var isMasked := if masked == Nil then Or(stored, Bool(false)) else masked;
    var m := if Truthy(isMasked) then cfg.maskedMsg else msg;
    Annotate(cfg, code, m)
  }

  /** `msg(masked = nil)`. */
  function Msg<I>(cfg: Config, e: Error<I>, masked: Value): (r: Value)
    ensures masked != Nil ==> r == Annotate(cfg, e.code, if Truthy(masked) then cfg.maskedMsg else e.msg)
    ensures masked == Nil ==> r == Annotate(cfg, e.code, if Truthy(e.masked) then cfg.maskedMsg else e.msg)
  {
    ShowMessage(cfg, e.masked, e.code, e.msg, masked)
  }

  /** The hash `{status:, code:, msg:, info:}` returned by `data`. */
  datatype ErrorData<I> = ErrorData(status: Value, code: Value, msg: Value, info: I)

  /** `data(masked = nil)`. */
  function Data<I>(cfg: Config, e: Error<I>, masked: Value): (r: ErrorData<I>)
    ensures r.status == e.status && r.code == e.code && r.info == e.info
    // the success error's data carries its text without the code
    ensures e.code == cfg.success.code ==> r.msg == (if EffectiveMasked(e.masked, masked) then cfg.maskedMsg else e.msg)
  {
    ErrorData(e.status, e.code, Msg(cfg, e, masked), e.info)
  }

  /** `internal?`. */
  predicate IsInternal<I>(cfg: Config, e: Error<I>)
    ensures IsInternal(cfg, e) <==> e.status == cfg.internal.status
  {
    e.status == cfg.internal.status
  }
}
