// Status codes, mailbox commands and their validation (mb_errors.h,
// mb_types.h, mb_vm.c:40-96).
module Commands {

  datatype Status =
    | Ok | Eof | BadReg | BadOpcode | BadBif | BadArgc | MailboxEmpty | InvalidCommand
    | BadArgument | MailboxFull | SchedIdle | BadPid | ProcTableFull | HeapOom | BadTerm | BadArity
  {
    function Code(): (n: nat)
      ensures n <= 15
      ensures n == 0 <==> Ok?
    {
      match this
      case Ok => 0
      case Eof => 1
      case BadReg => 2
      case BadOpcode => 3
      case BadBif => 4
      case BadArgc => 5
      case MailboxEmpty => 6
      case InvalidCommand => 7
      case BadArgument => 8
      case MailboxFull => 9
      case SchedIdle => 10
      case BadPid => 11
      case ProcTableFull => 12
      case HeapOom => 13
      case BadTerm => 14
      case BadArity => 15
    }
  }

  datatype Command = Command(kind: int, a: int, b: int, c: int, d: int)

  const CMD_NONE := 0
  const CMD_GPIO_WRITE := 1
  const CMD_PWM_SET_DUTY := 2
  const CMD_I2C_READ := 3
  const CMD_GPIO_READ := 4
  const CMD_I2C_WRITE := 5
  const CMD_PWM_CONFIG := 6

  predicate ValidGpioPin(pin: int) { 0 <= pin <= 39 }

  predicate ValidPwmChannel(channel: int) { 0 <= channel <= 7 }

  predicate ValidPwmDuty(permille: int) { 0 <= permille <= 1000 }

  predicate ValidI2cBus(bus: int) { 0 <= bus <= 3 }

  predicate ValidI2cAddr(addr: int) { 0 <= addr <= 0x7F }

  predicate ValidU8(value: int) { 0 <= value <= 0xFF }

  predicate ValidPwmFrequency(hz: int) { 0 < hz <= 40000 }

  function Check(ok: bool): Status { if ok then Ok else BadArgument }

  // mb_validate_command.
  function Validate(cmd: Command): (s: Status)
    ensures s in {Ok, BadArgument, InvalidCommand}
  {
    if cmd.kind == CMD_NONE then Ok
    else if cmd.kind == CMD_GPIO_WRITE then Check(ValidGpioPin(cmd.a) && (cmd.b == 0 || cmd.b == 1))
    else if cmd.kind == CMD_GPIO_READ then Check(ValidGpioPin(cmd.a))
    else if cmd.kind == CMD_PWM_SET_DUTY then Check(ValidPwmChannel(cmd.a) && ValidPwmDuty(cmd.b))
    else if cmd.kind == CMD_PWM_CONFIG then Check(ValidPwmChannel(cmd.a) && ValidPwmFrequency(cmd.b))
    else if cmd.kind == CMD_I2C_READ then
      Check(ValidI2cBus(cmd.a) && ValidI2cAddr(cmd.b) && ValidU8(cmd.c))
    else if cmd.kind == CMD_I2C_WRITE then
      Check(ValidI2cBus(cmd.a) && ValidI2cAddr(cmd.b) && ValidU8(cmd.c) && ValidU8(cmd.d))
    else InvalidCommand
  }
}
