/**
 * The scenarios of the library's own tests, stated over the model: an error
 * class with codes 1 and 2 (code 2 masked by default) under the default
 * configuration, and the same code 1 under each `code_in_msg` setting.
 */
module CodeErrorExamples {
  import opened Wrappers
  import opened RubyValue
  import opened CodeError

  /** The `info` values the tests pass: the default `{}` or a string. */
  datatype Info = EmptyHash | Text(s: string)

  const FAILED: Value := Sym("failed")
  const MSG_1: string := "The error message for code 1."
  const MSG_2: string := "The error message for code 2."

  function TestCodes(): map<Value, Entry> {
    map[Int(1) := Entry(FAILED, Str(MSG_1), Nil),
        Int(2) := Entry(FAILED, Str(MSG_2), Bool(true))]
  }

  function NewTestError(code: Value, msg: Value, info: Info): Result<Error<Info>, ConfigError> {
    New(Some(TestCodes()), DEFAULT_CONFIG, code, msg, info)
  }

  lemma MissingErrorCodesRaises()
    ensures New(None, DEFAULT_CONFIG, Nil, Nil, EmptyHash).Failure?
  {
  }

  lemma DefinedCode()
    ensures var r := NewTestError(Int(1), Nil, EmptyHash);
      && r.Success?
      && r.value.code == Int(1) && r.value.status == FAILED
      && Msg(DEFAULT_CONFIG, r.value, Nil) == Str(MSG_1 + "(1)")
      && Data(DEFAULT_CONFIG, r.value, Nil) == ErrorData(FAILED, Int(1), Str(MSG_1 + "(1)"), EmptyHash)
      && !IsInternal(DEFAULT_CONFIG, r.value)
  {
  }

  lemma UndefinedCode()
    ensures var r := NewTestError(Int(55688), Nil, EmptyHash);
      && r.Success?
      && r.value.code == Int(55688) && r.value.status == INTERNAL_STATUS
      && Msg(DEFAULT_CONFIG, r.value, Nil) == Str("An internal error occurs.(55688)")
      && IsInternal(DEFAULT_CONFIG, r.value)
  {
  }

  lemma StringCode()
    ensures var r := NewTestError(Str("An error message."), Nil, EmptyHash);
      && r.Success?
      && r.value.code == INTERNAL_CODE && r.value.status == INTERNAL_STATUS
      && Msg(DEFAULT_CONFIG, r.value, Nil) == Str("An error message.(99999)")
      && IsInternal(DEFAULT_CONFIG, r.value)
  {
  }

  lemma SuccessCodeExample()
    ensures var r := NewTestError(SUCCESS_CODE, Nil, EmptyHash);
      && r.Success?
      && r.value.code == SUCCESS_CODE && r.value.status == SUCCESS_STATUS
      && Msg(DEFAULT_CONFIG, r.value, Nil) == Str("")
      && !IsInternal(DEFAULT_CONFIG, r.value)
  {
  }

  lemma MaskedArgument()
    ensures var r := NewTestError(Int(1), MASKED, EmptyHash);
      && r.Success?
      && r.value.code == Int(1) && r.value.status == FAILED
      && Msg(DEFAULT_CONFIG, r.value, Nil) == Str("An error occurs.(1)")
      && !IsInternal(DEFAULT_CONFIG, r.value)
  {
  }

  lemma MaskedByEntry()
    ensures var r := NewTestError(Int(2), Nil, EmptyHash);
      && r.Success?
      && r.value.code == Int(2) && r.value.status == FAILED
      && Msg(DEFAULT_CONFIG, r.value, Nil) == Str("An error occurs.(2)")
      && !IsInternal(DEFAULT_CONFIG, r.value)
  {
  }

  lemma InfoKept()
    ensures var r := NewTestError(Int(1), Nil, Text("some information"));
      r.Success? && r.value.info == Text("some information")
  {
  }

  /** The default configuration with `code_in_msg` replaced, as a subclass's `config` override does. */
  function WithCodeInMsg(setting: Value): Config {
    DEFAULT_CONFIG.(codeInMsg := setting)
  }

  function CodeOneMsg(setting: Value): Value {
    var codes := map[Int(1) := Entry(FAILED, Str(MSG_1), Nil)];
    Msg(WithCodeInMsg(setting), Resolve(codes, WithCodeInMsg(setting), Int(1), Nil, EmptyHash), Nil)
  }

  function SuccessMsg(setting: Value): Value {
    var codes := map[Int(1) := Entry(FAILED, Str(MSG_1), Nil)];
    Msg(WithCodeInMsg(setting), Resolve(codes, WithCodeInMsg(setting), SUCCESS_CODE, Nil, EmptyHash), Nil)
  }

  lemma CodeInMsgSettings()
    ensures CodeOneMsg(APPEND) == Str(MSG_1 + "(1)")
    ensures CodeOneMsg(PREPAND) == Str("(1)" + MSG_1)
    ensures CodeOneMsg(Sym("none")) == Str(MSG_1)
    ensures SuccessMsg(APPEND) == SUCCESS_MSG && SuccessMsg(PREPAND) == SUCCESS_MSG
  {
  }
}
