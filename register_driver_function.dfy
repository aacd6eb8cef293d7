/** The member-side JDBC driver registration function (RegisterDriverFunction):
    the first function argument names a driver class, the member tries to
    register it, and the attempt is turned into exactly one CliFunctionResult.
    Loading the class and handing it to the JDBC driver manager is a foreign
    call; it is modelled as the registration outcome the member observes. */
module RegisterDriverFunction {
  import opened Strings
  import opened FunctionResults
  import opened ClusterManagementResults

  /** What DriverJarUtil.registerDriver did: returned, or threw with a message. */
  datatype Registration = Registered | Threw(message: string)

  /** The parts of the function context that executeFunction reads. */
  datatype FunctionContext = FunctionContext(arguments: seq<string>, memberName: string)

  /** The success template, spelled as the function spells it. */
  const SuccessTemplate := " was succesfully registered."

  /** Reading argument 0 of an empty argument array throws; this is its message. */
  const MissingArgumentMessage := "Index 0 out of bounds for length 0"

  function SuccessMessage(driverClassName: string): string {
    driverClassName + SuccessTemplate
  }

  datatype Option<T> = None | Some(value: T)

  /** The driver class named by a success message: the inverse of SuccessMessage. */
  function DriverNamed(message: string): (name: Option<string>)
    ensures name.Some? ==> SuccessMessage(name.value) == message
  {
    if |message| >= |SuccessTemplate| && message[|message| - |SuccessTemplate|..] == SuccessTemplate
    then Some(message[..|message| - |SuccessTemplate|])
    else None
  }

  /** executeFunction: every failure, including a missing argument, becomes an
      ERROR result carrying the exception's message; nothing is thrown. */
  function ExecuteFunction(context: FunctionContext, register: string -> Registration): (r: CliFunctionResult)
    ensures r.memberIdOrName == context.memberName
    ensures r.IsSuccessful() <==> |context.arguments| > 0 && register(context.arguments[0]).Registered?
    ensures r.IsSuccessful() ==> r.statusMessage == SuccessMessage(context.arguments[0])
    ensures |context.arguments| > 0 && register(context.arguments[0]).Threw? ==>
      r.statusMessage == register(context.arguments[0]).message
    ensures |context.arguments| == 0 ==> r.statusMessage == MissingArgumentMessage
  {
    if |context.arguments| == 0 then
      CliFunctionResult(context.memberName, ERROR, MissingArgumentMessage)
    else
      var driverClassName := context.arguments[0];
      match register(driverClassName)
      case Registered => CliFunctionResult(context.memberName, OK, SuccessMessage(driverClassName))
      case Threw(message) => CliFunctionResult(context.memberName, ERROR, message)
  }

  /** A success message gives back the driver class it was made for. */
  lemma SuccessMessageRoundTrip(driverClassName: string)
    ensures DriverNamed(SuccessMessage(driverClassName)) == Some(driverClassName)
  {
    var m := SuccessMessage(driverClassName);
    assert m[|m| - |SuccessTemplate|..] == SuccessTemplate;
    assert m[..|m| - |SuccessTemplate|] == driverClassName;
  }

  /** Different driver classes are never reported with the same success message. */
  lemma SuccessMessageInjective(a: string, b: string)
    requires SuccessMessage(a) == SuccessMessage(b)
    ensures a == b
  {
    SuccessMessageRoundTrip(a);
    SuccessMessageRoundTrip(b);
  }

  /** A registered driver: status OK, and the message names the driver class
      followed by the success template. */
  lemma RegisteredReportsDriver(context: FunctionContext, register: string -> Registration)
    requires |context.arguments| > 0 && register(context.arguments[0]) == Registered
    ensures var r := ExecuteFunction(context, register);
      && Contains(r.statusMessage, context.arguments[0] + " was succesfully registered.")
      && Contains(r.statusMessage, context.arguments[0])
      && Contains(StatusName(r.status), "OK")
  {
    var r := ExecuteFunction(context, register);
    ContainsSelf(r.statusMessage);
    ContainsPrefix(context.arguments[0], SuccessTemplate);
    ContainsSelf(StatusName(r.status));
  }

  /** A registration that threw: status ERROR, and the message is the exception's. */
  lemma ThrownReportsMessage(context: FunctionContext, register: string -> Registration, message: string)
    requires |context.arguments| > 0 && register(context.arguments[0]) == Threw(message)
    ensures var r := ExecuteFunction(context, register);
      && Contains(r.statusMessage, message)
      && Contains(StatusName(r.status), "ERROR")
  {
    var r := ExecuteFunction(context, register);
    ContainsSelf(r.statusMessage);
    ContainsSelf(StatusName(r.status));
  }

  /** The function run on each targeted member: exactly one result per member,
      in the members' order, naming that member and successful exactly when
      a driver class was given and that member registered it. */
  function RunOnMembers(members: seq<string>, arguments: seq<string>,
                        register: string -> string -> Registration): (rs: seq<CliFunctionResult>)
    ensures |rs| == |members|
    ensures forall i :: 0 <= i < |members| ==> rs[i].memberIdOrName == members[i]
    ensures forall i :: 0 <= i < |members| ==>
      (rs[i].IsSuccessful() <==> |arguments| > 0 && register(members[i])(arguments[0]).Registered?)
  {
    seq(|members|, i requires 0 <= i < |members| =>
      ExecuteFunction(FunctionContext(arguments, members[i]), register(members[i])))
  }

  /** The collected verdict over the members: successful exactly when the
      driver class was named and every member registered it. */
  lemma RegistrationVerdict(members: seq<string>, arguments: seq<string>,
                            register: string -> string -> Registration)
    ensures Collect(RunOnMembers(members, arguments, register)).successful <==>
      |members| == 0 ||
      (|arguments| > 0 && forall i :: 0 <= i < |members| ==> register(members[i])(arguments[0]).Registered?)
  {
    var rs := RunOnMembers(members, arguments, register);
    if |members| > 0 && |arguments| == 0 {
      assert !rs[0].IsSuccessful();
    }
  }

  /** The stubbed driver utility of the first test: registration returns. */
  function RegistersAnything(driverClassName: string): Registration {
    Registered
  }

  /** The stubbed driver utility of the second test: registration throws. */
  function ClassNotFound(driverClassName: string): Registration {
    Threw("Test class not found")
  }

  /** testExecuteFunctionDoesNotReturnError: the driver registers. */
  lemma DriverRegistersScenario()
    ensures var r := ExecuteFunction(FunctionContext(["Test.Driver.Name"], "Test Member Name"), RegistersAnything);
      && Contains(r.statusMessage, "Test.Driver.Name was succesfully registered.")
      && Contains(StatusName(r.status), "OK")
  {
    RegisteredReportsDriver(FunctionContext(["Test.Driver.Name"], "Test Member Name"), RegistersAnything);
    TestDriverText();
  }

  /** The success message for "Test.Driver.Name", spelled out once. */
  lemma TestDriverText()
    ensures "Test.Driver.Name" + SuccessTemplate == "Test.Driver.Name was succesfully registered."
  {
  }

  /** testExecuteFunctionReturnsWithException: registration throws
      ClassNotFoundException("Test class not found"). */
  lemma DriverThrowsScenario()
    ensures var r := ExecuteFunction(FunctionContext(["Test.Driver.Name"], "Test Member Name"),
                                     ClassNotFound);
      && Contains(r.statusMessage, "Test class not found")
      && Contains(StatusName(r.status), "ERROR")
  {
    ThrownReportsMessage(FunctionContext(["Test.Driver.Name"], "Test Member Name"),
                         ClassNotFound, "Test class not found");
  }
}
