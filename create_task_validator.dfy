/**
 * The validator of create requests: seven rules over the four fields of the
 * request, each reported independently, in declaration order. The due-date
 * rule compares with the clock reading taken once, when the validator is
 * built, not at each validation.
 */
module CreateTaskValidation {
  import opened Wrappers
  import opened SystemTypes
  import opened TaskEnums
  import opened TaskLifecycle

  /**
   * The create request. priority is the enum's underlying number: a request
   * body can carry a number that names no member.
   */
  datatype CreateTaskDto = CreateTaskDto(title: string, description: string, priority: int, dueDate: Instant)

  const MaxTitleLength: nat := 200
  const MaxDescriptionLength: nat := 1000

  /** The request property a rule is attached to. */
  datatype Property = Title | Description | Priority | DueDate

  /** The rules, one per validator in the rule chains. */
  datatype Rule =
    | TitleRequired | TitleMaxLength
    | DescriptionRequired | DescriptionMaxLength
    | PriorityInEnum
    | DueDateRequired | DueDateInFuture
  {
    function Property(): Property {
      match this
      case TitleRequired | TitleMaxLength => Title
      case DescriptionRequired | DescriptionMaxLength => Description
      case PriorityInEnum => Priority
      case DueDateRequired | DueDateInFuture => DueDate
    }

    /** Position in the declaration of the rule chains. */
    function Order(): nat {
      match this
      case TitleRequired => 0
      case TitleMaxLength => 1
      case DescriptionRequired => 2
      case DescriptionMaxLength => 3
      case PriorityInEnum => 4
      case DueDateRequired => 5
      case DueDateInFuture => 6
    }

    function Message(): string {
      match this
      case TitleRequired => "Title is required"
      case TitleMaxLength => "Title cannot exceed 200 characters"
      case DescriptionRequired => "Description is required"
      case DescriptionMaxLength => "Description cannot exceed 1000 characters"
      case PriorityInEnum => "Priority must be a valid value"
      case DueDateRequired => "Due date is required"
      case DueDateInFuture => "Due date must be in the future"
    }
  }

  /** All rules, as declared. */
  const DeclaredRules: seq<Rule> :=
    [TitleRequired, TitleMaxLength, DescriptionRequired, DescriptionMaxLength,
     PriorityInEnum, DueDateRequired, DueDateInFuture]

  /** Every rule is among the declared ones. */
  lemma AllRulesDeclared()
    ensures forall rule: Rule :: rule in DeclaredRules
  {
    forall rule: Rule ensures rule in DeclaredRules {
      assert DeclaredRules[rule.Order()] == rule;
    }
  }

  /** Passing every rule, spelled out field by field. */
  lemma PassingEveryRule(v: CreateTaskDtoValidator, dto: CreateTaskDto)
    ensures (forall rule: Rule :: v.Passes(rule, dto)) <==>
              && !IsNullOrWhiteSpace(dto.title) && Utf16Length(dto.title) <= MaxTitleLength
              && !IsNullOrWhiteSpace(dto.description) && Utf16Length(dto.description) <= MaxDescriptionLength
              && IsDefinedPriority(dto.priority)
              && dto.dueDate != DefaultInstant && dto.dueDate > v.referenceNow
  {
    if (forall rule: Rule :: v.Passes(rule, dto)) {
      assert v.Passes(TitleRequired, dto) && v.Passes(TitleMaxLength, dto);
      assert v.Passes(DescriptionRequired, dto) && v.Passes(DescriptionMaxLength, dto);
      assert v.Passes(PriorityInEnum, dto) && v.Passes(DueDateRequired, dto) && v.Passes(DueDateInFuture, dto);
    }
  }

  /** Strictly increasing declaration order. */
  predicate InDeclarationOrder(rules: seq<Rule>) {
    forall i, j :: 0 <= i < j < |rules| ==> rules[i].Order() < rules[j].Order()
  }

  /** The rules of a list attached to one property, in the same order. */
  function OnProperty(rules: seq<Rule>, p: Property): (r: seq<Rule>)
    ensures forall rule :: rule in r <==> rule in rules && rule.Property() == p
  {
    if rules == [] then []
    else (if rules[0].Property() == p then [rules[0]] else []) + OnProperty(rules[1..], p)
  }

  /** Two requests that carry the same value for a property. */
  predicate AgreeOn(a: CreateTaskDto, b: CreateTaskDto, p: Property) {
    match p
    case Title => a.title == b.title
    case Description => a.description == b.description
    case Priority => a.priority == b.priority
    case DueDate => a.dueDate == b.dueDate
  }

  /** A validator, built at the clock reading referenceNow. */
  datatype CreateTaskDtoValidator = CreateTaskDtoValidator(referenceNow: Instant)
  {
    /**
     * Whether a request passes one rule. Required means neither empty nor
     * white space for a string and not default(DateTime) for a date; lengths
     * are in UTF-16 code units.
     */
    predicate Passes(rule: Rule, dto: CreateTaskDto)
      ensures rule == TitleMaxLength && |dto.title| > MaxTitleLength ==> !Passes(rule, dto)
      ensures rule == TitleMaxLength && 2 * |dto.title| <= MaxTitleLength ==> Passes(rule, dto)
      ensures rule == DescriptionMaxLength && |dto.description| > MaxDescriptionLength ==> !Passes(rule, dto)
      ensures rule == DescriptionMaxLength && 2 * |dto.description| <= MaxDescriptionLength ==> Passes(rule, dto)
      ensures rule == TitleRequired && dto.title == [] ==> !Passes(rule, dto)
      ensures rule == DueDateInFuture && Passes(rule, dto) ==> dto.dueDate != DefaultInstant
    {
      match rule
      case TitleRequired => !IsNullOrWhiteSpace(dto.title)
      case TitleMaxLength => Utf16Length(dto.title) <= MaxTitleLength
      case DescriptionRequired => !IsNullOrWhiteSpace(dto.description)
      case DescriptionMaxLength => Utf16Length(dto.description) <= MaxDescriptionLength
      case PriorityInEnum => IsDefinedPriority(dto.priority)
      case DueDateRequired => dto.dueDate != DefaultInstant
      case DueDateInFuture => dto.dueDate > referenceNow
    }

    /** A request is valid when it passes every rule. */
    predicate IsValid(dto: CreateTaskDto)
      ensures IsValid(dto) <==>
                && !IsNullOrWhiteSpace(dto.title) && Utf16Length(dto.title) <= MaxTitleLength
                && !IsNullOrWhiteSpace(dto.description) && Utf16Length(dto.description) <= MaxDescriptionLength
                && IsDefinedPriority(dto.priority)
                && dto.dueDate != DefaultInstant && dto.dueDate > referenceNow
    {
      PassingEveryRule(this, dto);
      forall rule: Rule :: Passes(rule, dto)
    }

    /** The rules of a list that a request fails, in list order. */
    function Failing(rules: seq<Rule>, dto: CreateTaskDto): (errors: seq<Rule>)
      ensures forall rule :: rule in errors <==> rule in rules && !Passes(rule, dto)
      ensures InDeclarationOrder(rules) ==> InDeclarationOrder(errors)
    {
      if rules == [] then []
      else
        var rest := Failing(rules[1..], dto);
        assert InDeclarationOrder(rules) ==>
                 InDeclarationOrder(rules[1..])
                 && forall k :: 0 <= k < |rest| ==> rules[0].Order() < rest[k].Order() by {
          if InDeclarationOrder(rules) {
            forall k | 0 <= k < |rest| ensures rules[0].Order() < rest[k].Order() {
              assert rest[k] in rules[1..];
              var m :| 0 <= m < |rules[1..]| && rules[1..][m] == rest[k];
              assert rules[m + 1] == rest[k];
            }
          }
        }
        (if Passes(rules[0], dto) then [] else [rules[0]]) + rest
    }

    /**
     * The failures validation reports: exactly the rules the request fails,
     * each once, in declaration order; none exactly when the request is valid.
     */
    function Validate(dto: CreateTaskDto): (errors: seq<Rule>)
      ensures forall rule :: rule in errors <==> !Passes(rule, dto)
      ensures InDeclarationOrder(errors)
      ensures errors == [] <==> IsValid(dto)
    {
      AllRulesDeclared();
      var errors := Failing(DeclaredRules, dto);
      assert errors != [] ==> errors[0] in errors;
      errors
    }
  }

  /** Each rule, when it is reported. */
  lemma RejectionReasons(v: CreateTaskDtoValidator, dto: CreateTaskDto)
    ensures TitleRequired in v.Validate(dto) <==> IsNullOrWhiteSpace(dto.title)
    ensures TitleMaxLength in v.Validate(dto) <==> Utf16Length(dto.title) > MaxTitleLength
    ensures DescriptionRequired in v.Validate(dto) <==> IsNullOrWhiteSpace(dto.description)
    ensures DescriptionMaxLength in v.Validate(dto) <==> Utf16Length(dto.description) > MaxDescriptionLength
    ensures PriorityInEnum in v.Validate(dto) <==> !(0 <= dto.priority <= 3)
    ensures DueDateRequired in v.Validate(dto) <==> dto.dueDate == DefaultInstant
    ensures DueDateInFuture in v.Validate(dto) <==> dto.dueDate <= v.referenceNow
  {
    var errors := v.Validate(dto);
    PriorityCodeRoundTrip(Low, dto.priority);
    assert TitleRequired in errors <==> !v.Passes(TitleRequired, dto);
    assert TitleMaxLength in errors <==> !v.Passes(TitleMaxLength, dto);
    assert DescriptionRequired in errors <==> !v.Passes(DescriptionRequired, dto);
    assert DescriptionMaxLength in errors <==> !v.Passes(DescriptionMaxLength, dto);
    assert PriorityInEnum in errors <==> !v.Passes(PriorityInEnum, dto);
    assert DueDateRequired in errors <==> !v.Passes(DueDateRequired, dto);
    assert DueDateInFuture in errors <==> !v.Passes(DueDateInFuture, dto);
  }

  /** A rule's verdict depends on its own property alone. */
  lemma PassesReadsOwnProperty(v: CreateTaskDtoValidator, rule: Rule, a: CreateTaskDto, b: CreateTaskDto)
    requires AgreeOn(a, b, rule.Property())
    ensures v.Passes(rule, a) <==> v.Passes(rule, b)
  {
  }

  /**
   * The rules are independent: the failures reported for a property are the
   * same for any two requests that agree on that property.
   */
  lemma {:induction false} FailuresOnPropertyIndependent(v: CreateTaskDtoValidator, rules: seq<Rule>,
                                                        a: CreateTaskDto, b: CreateTaskDto, p: Property)
    requires AgreeOn(a, b, p)
    ensures OnProperty(v.Failing(rules, a), p) == OnProperty(v.Failing(rules, b), p)
  {
    if rules != [] {
      var r := rules[0];
      FailuresOnPropertyIndependent(v, rules[1..], a, b, p);
      var headA := if v.Passes(r, a) then [] else [r];
      var headB := if v.Passes(r, b) then [] else [r];
      OnPropertyAppend(headA, v.Failing(rules[1..], a), p);
      OnPropertyAppend(headB, v.Failing(rules[1..], b), p);
      if r.Property() == p {
        PassesReadsOwnProperty(v, r, a, b);
      } else {
        assert OnProperty(headA, p) == [] == OnProperty(headB, p);
      }
    }
  }

  lemma {:induction false} OnPropertyAppend(x: seq<Rule>, y: seq<Rule>, p: Property)
    ensures OnProperty(x + y, p) == OnProperty(x, p) + OnProperty(y, p)
  {
    if x == [] {
      assert x + y == y;
    } else {
      assert (x + y)[0] == x[0];
      assert (x + y)[1..] == x[1..] + y;
      OnPropertyAppend(x[1..], y, p);
    }
  }

  /** The validation-level form of independence. */
  lemma ValidationFailuresIndependent(v: CreateTaskDtoValidator, a: CreateTaskDto, b: CreateTaskDto, p: Property)
    requires AgreeOn(a, b, p)
    ensures OnProperty(v.Validate(a), p) == OnProperty(v.Validate(b), p)
  {
    FailuresOnPropertyIndependent(v, DeclaredRules, a, b, p);
  }

  /**
   * A request the validator accepts passes the entity constructor's guards,
   * and names a priority member, provided the entity's clock reading is not
   * later than the validator's.
   */
  lemma ValidRequestPassesEntityGuards(v: CreateTaskDtoValidator, dto: CreateTaskDto, now: Instant)
    requires v.IsValid(dto)
    requires now <= v.referenceNow
    ensures PriorityFromCode(dto.priority).Some?
    ensures CheckDetails(dto.title, dto.dueDate, now) == None
  {
    assert v.Passes(TitleRequired, dto) && v.Passes(DueDateInFuture, dto) && v.Passes(PriorityInEnum, dto);
  }

  /**
   * Because the reference instant is fixed when the validator is built, a
   * validator built earlier accepts a due date that is already past when the
   * entity reads the clock.
   */
  lemma StaleReferenceAcceptsPastDueDate()
    ensures var v := CreateTaskDtoValidator(10);
            var dto := CreateTaskDto("a", "b", 0, 11);
            v.Validate(dto) == [] && CheckDetails(dto.title, dto.dueDate, 20) == Some(DueDateNotInFuture)
  {
    var v := CreateTaskDtoValidator(10);
    var dto := CreateTaskDto("a", "b", 0, 11);
    assert "a"[0] == 'a' && "b"[0] == 'b';
    assert v.Passes(PriorityInEnum, dto) by { PriorityCodeRoundTrip(Low, 0); }
    assert forall rule: Rule :: v.Passes(rule, dto);
  }

  /**
   * The length limit counts UTF-16 code units: 101 characters outside the
   * Basic Multilingual Plane exceed the 200-unit title limit, 200 plain
   * letters do not.
   */
  lemma TitleLengthCountsCodeUnits(v: CreateTaskDtoValidator)
    ensures var astral := seq(101, _ => '\U{1F600}');
            TitleMaxLength in v.Validate(CreateTaskDto(astral, "b", 0, 1))
    ensures var plain := seq(200, _ => 'a');
            TitleMaxLength !in v.Validate(CreateTaskDto(plain, "b", 0, 1))
  {
    var astral := seq(101, _ => '\U{1F600}');
    Utf16LengthOfAstral(astral);
    var plain := seq(200, _ => 'a');
    Utf16LengthOfBmp(plain);
  }
}
