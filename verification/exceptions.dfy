/**
 * The exception types that the modelled catch clauses name or that the modelled
 * operations can raise, with their inheritance, and the rule by which a
 * try statement picks a catch clause: the first clause, in source order, whose
 * type the thrown exception is an instance of.
 */
module Exceptions {
  import opened Wrappers

  datatype ExceptionType =
    | Exception                   // System.Exception, the root
    | SystemException
    | OperationCanceledException
    | TaskCanceledException       // what an awaited Task.Delay throws on cancellation
    | KafkaException              // Confluent.Kafka.KafkaException
    | ConsumeException
    | ProduceException
    | JsonException               // System.Text.Json.JsonException
    | OtherException              // any other type deriving directly from Exception

  function Depth(t: ExceptionType): nat
  {
    match t
    case Exception => 0
    case SystemException | KafkaException | JsonException | OtherException => 1
    case OperationCanceledException | ConsumeException | ProduceException => 2
    case TaskCanceledException => 3
  }

  /** The direct base class; only the root has none. */
  function Parent(t: ExceptionType): (p: Option<ExceptionType>)
    ensures p.None? <==> t == Exception
    ensures p.Some? ==> Depth(p.value) < Depth(t)
  {
    match t
    case Exception => None
    case SystemException | KafkaException | JsonException | OtherException => Some(Exception)
    case OperationCanceledException => Some(SystemException)
    case TaskCanceledException => Some(OperationCanceledException)
    case ConsumeException | ProduceException => Some(KafkaException)
  }

  /** `ex is U`: `t` is `u` or derives from it. */
  predicate IsA(t: ExceptionType, u: ExceptionType)
    decreases Depth(t)
  {
    t == u || (Parent(t).Some? && IsA(Parent(t).value, u))
  }

  /** Every exception type derives from System.Exception, so `catch (Exception)` catches all. */
  lemma {:induction false} EveryExceptionIsAnException(t: ExceptionType)
    ensures IsA(t, Exception)
    decreases Depth(t)
  {
    if t != Exception {
      EveryExceptionIsAnException(Parent(t).value);
    }
  }

  /** One `catch (T)` clause and what the code does when it is taken. */
  datatype Handler<A> = Catch(catches: ExceptionType, action: A)

  /** The index of the catch clause that handles `ex`, or None when the exception propagates. */
  function FirstMatch<A>(handlers: seq<Handler<A>>, ex: ExceptionType): (r: Option<nat>)
    ensures r.None? <==> forall i :: 0 <= i < |handlers| ==> !IsA(ex, handlers[i].catches)
    ensures r.Some? ==> r.value < |handlers| && IsA(ex, handlers[r.value].catches)
    ensures r.Some? ==> forall j :: 0 <= j < r.value ==> !IsA(ex, handlers[j].catches)
  {
    if handlers == [] then None
    else if IsA(ex, handlers[0].catches) then Some(0)
    else match FirstMatch(handlers[1..], ex)
      case None => None
      case Some(i) => Some(i + 1)
  }
}
