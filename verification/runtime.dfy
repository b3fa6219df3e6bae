/**
 * What the PHP runtime tells the router about classes: which exist, which implement
 * the controller interface, and what reflection reports about their methods.
 * These answers come from code the model does not see, so they are inputs.
 */
module Runtime {
  import opened Wrappers

  /** A controller instance: its class and the arguments its constructor was given. */
  datatype Controller = Controller(cls: string, args: seq<string>)

  /** A declared parameter of an action; `default` is present exactly when it is optional. */
  datatype Param = Param(name: string, default: Option<string>)

  /** What reflection reports about one method. */
  datatype MethodInfo = MethodInfo(isPublic: bool, params: seq<Param>)

  datatype Classes = Classes(
    /** `class_exists` */
    classExists: string -> bool,
    /** whether an instance of the class is a `ControllerInterface` */
    isController: string -> bool,
    /** the method of a class by name, as `method_exists` and `ReflectionMethod` find it */
    methodOf: (string, string) -> Option<MethodInfo>)
}
